/** Python dictionaries keyed by a record's own name, the way the ledger builds them: a list
    of records in insertion order. Assigning to a present key keeps its place, a new key goes
    last, and del drops the entry. */
module Dicts {
  import opened Results
  import opened Seqs

  /** The keys in iteration order. */
  function Keys<T>(d: seq<T>, key: T -> string): (ks: seq<string>)
    ensures |ks| == |d|
    ensures forall i :: 0 <= i < |d| ==> ks[i] == key(d[i])
  {
    seq(|d|, i requires 0 <= i < |d| => key(d[i]))
  }

  /** No key occurs twice. */
  predicate UniqueKeys<T>(d: seq<T>, key: T -> string) {
    forall i, j :: 0 <= i < j < |d| ==> key(d[i]) != key(d[j])
  }

  /** d.get(k): the entry stored under k, if any. */
  function Get<T>(d: seq<T>, key: T -> string, k: string): (r: Option<T>)
    ensures r.Some? <==> k in Keys(d, key)
    ensures r.Some? ==> key(r.value) == k && r.value in d
  {
    if |d| == 0 then None
    else if key(d[0]) == k then Some(d[0])
    else
      assert Keys(d, key) == [key(d[0])] + Keys(d[1..], key);
      Get(d[1..], key, k)
  }

  lemma KeysCons<T>(x: T, s: seq<T>, key: T -> string)
    ensures Keys([x] + s, key) == [key(x)] + Keys(s, key)
  {
  }

  lemma KeysTail<T>(d: seq<T>, key: T -> string)
    requires |d| > 0
    ensures Keys(d, key) == [key(d[0])] + Keys(d[1..], key)
  {
  }

  /** d[key(v)] = v: the entry under v's key is replaced where it stands, or v is added last. */
  function Put<T>(d: seq<T>, key: T -> string, v: T): (r: seq<T>)
    ensures |r| == |d| || r == d + [v]
    ensures forall x :: x in r ==> x in d || x == v
  {
    if |d| == 0 then [v]
    else if key(d[0]) == key(v) then [v] + d[1..]
    else [d[0]] + Put(d[1..], key, v)
  }

  /** The keys after an assignment: unchanged if the key was there, else one more at the end. */
  lemma {:induction false} PutKeys<T>(d: seq<T>, key: T -> string, v: T)
    ensures Keys(Put(d, key, v), key) ==
      if key(v) in Keys(d, key) then Keys(d, key) else Keys(d, key) + [key(v)]
    ensures key(v) !in Keys(d, key) ==> Put(d, key, v) == d + [v]
  {
    if |d| > 0 {
      KeysTail(d, key);
      if key(d[0]) == key(v) {
        KeysCons(v, d[1..], key);
      } else {
        PutKeys(d[1..], key, v);
        KeysCons(d[0], Put(d[1..], key, v), key);
        if key(v) !in Keys(d, key) {
          assert [d[0]] + (d[1..] + [v]) == d + [v];
        }
      }
    }
  }

  /** Reading after an assignment: the assigned key gives the new record, other keys are as
      before. */
  lemma {:induction false} PutGet<T>(d: seq<T>, key: T -> string, v: T, k: string)
    ensures Get(Put(d, key, v), key, k) == if k == key(v) then Some(v) else Get(d, key, k)
  {
    if |d| > 0 && key(d[0]) != key(v) {
      PutGet(d[1..], key, v, k);
      assert Put(d, key, v)[1..] == Put(d[1..], key, v);
    } else if |d| > 0 {
      assert Put(d, key, v)[1..] == d[1..];
    }
  }

  /** An assignment keeps the keys distinct. */
  lemma PutUnique<T>(d: seq<T>, key: T -> string, v: T)
    requires UniqueKeys(d, key)
    ensures UniqueKeys(Put(d, key, v), key)
  {
    PutKeys(d, key, v);
    var r := Put(d, key, v);
    forall i, j | 0 <= i < j < |r| ensures key(r[i]) != key(r[j]) {
      assert Keys(r, key)[i] == key(r[i]) && Keys(r, key)[j] == key(r[j]);
      assert Keys(d, key) == Keys(d, key)[..|d|];
    }
  }

  /** del d[k]: the entry under k removed, the others kept in order. */
  function Del<T>(d: seq<T>, key: T -> string, k: string): (r: seq<T>)
    ensures |r| <= |d|
    ensures forall x :: x in r ==> x in d
  {
    if |d| == 0 then []
    else if key(d[0]) == k then Del(d[1..], key, k)
    else [d[0]] + Del(d[1..], key, k)
  }

  /** After del the key is gone, every other key reads as before, and nothing else moves. */
  lemma {:induction false} DelGet<T>(d: seq<T>, key: T -> string, k: string, k': string)
    ensures Get(Del(d, key, k), key, k) == None
    ensures k' != k ==> Get(Del(d, key, k), key, k') == Get(d, key, k')
    ensures k !in Keys(d, key) ==> Del(d, key, k) == d
  {
    if |d| > 0 {
      KeysTail(d, key);
      DelGet(d[1..], key, k, k');
      if key(d[0]) != k {
        assert Del(d, key, k)[1..] == Del(d[1..], key, k);
      }
    }
  }

  /** Deleting a present key from a dictionary with distinct keys drops exactly one entry and
      keeps the keys distinct. */
  lemma {:induction false} DelUnique<T>(d: seq<T>, key: T -> string, k: string)
    requires UniqueKeys(d, key)
    ensures UniqueKeys(Del(d, key, k), key)
    ensures k in Keys(d, key) ==> |Del(d, key, k)| == |d| - 1
  {
    if |d| > 0 {
      KeysTail(d, key);
      assert UniqueKeys(d[1..], key);
      DelUnique(d[1..], key, k);
      var rest := Del(d[1..], key, k);
      if key(d[0]) == k {
        assert k !in Keys(d[1..], key);
        DelGet(d[1..], key, k, k);
      } else {
        var r := [d[0]] + rest;
        forall j | 0 < j < |r| ensures key(r[0]) != key(r[j]) {
          assert r[j] in d[1..];
          var i :| 0 <= i < |d[1..]| && d[1..][i] == r[j];
          assert d[i + 1] == r[j];
        }
      }
    }
  }

  /** The dictionary a loop builds by decoding each item in turn and assigning the record under
      its key; the first item that fails to decode stops the loop with its error. */
  function DecodeAll<S, T>(items: seq<S>, decode: S -> Result<T>, key: T -> string): (r: Result<seq<T>>)
    ensures r.Ok? ==> UniqueKeys(r.value, key) && |r.value| <= |items|
  {
    if |items| == 0 then Ok([])
    else
      var n := |items| - 1;
      match DecodeAll(items[..n], decode, key)
      case Err(e) => Err(e)
      case Ok(acc) =>
        match decode(items[n])
        case Err(e) => Err(e)
        case Ok(v) =>
          PutUnique(acc, key, v);
          Ok(Put(acc, key, v))
  }

  /** A failed loop fails with the error of one of the items. */
  lemma {:induction false} DecodeAllErr<S, T>(items: seq<S>, decode: S -> Result<T>, key: T -> string)
    ensures DecodeAll(items, decode, key).Err? ==>
      exists i :: 0 <= i < |items| && decode(items[i]) == Err(DecodeAll(items, decode, key).error)
  {
    if |items| > 0 {
      var n := |items| - 1;
      DecodeAllErr(items[..n], decode, key);
      if DecodeAll(items[..n], decode, key).Err? {
        var i :| 0 <= i < n && decode(items[..n][i]) == Err(DecodeAll(items[..n], decode, key).error);
        assert items[..n][i] == items[i];
      }
    }
  }

  /** Every record the loop keeps is the record of one of the items, so a property that all
      decoded records have holds of the result. */
  lemma {:induction false} DecodeAllHolds<S, T>(items: seq<S>, decode: S -> Result<T>, key: T -> string, p: T -> bool)
    requires forall i :: 0 <= i < |items| && decode(items[i]).Ok? ==> p(decode(items[i]).value)
    ensures DecodeAll(items, decode, key).Ok? ==>
      forall k :: 0 <= k < |DecodeAll(items, decode, key).value| ==> p(DecodeAll(items, decode, key).value[k])
  {
    if |items| > 0 {
      var n := |items| - 1;
      assert forall i :: 0 <= i < n ==> items[..n][i] == items[i];
      DecodeAllHolds(items[..n], decode, key, p);
      var r := DecodeAll(items, decode, key);
      if r.Ok? {
        var acc := DecodeAll(items[..n], decode, key).value;
        forall k | 0 <= k < |r.value| ensures p(r.value[k]) {
          assert r.value[k] in r.value;
          if r.value[k] in acc {
            var j :| 0 <= j < |acc| && acc[j] == r.value[k];
          }
        }
      }
    }
  }

  /** The loop succeeds exactly when every item decodes. */
  lemma {:induction false} DecodeAllOk<S, T>(items: seq<S>, decode: S -> Result<T>, key: T -> string)
    ensures DecodeAll(items, decode, key).Ok? <==> forall i :: 0 <= i < |items| ==> decode(items[i]).Ok?
  {
    if |items| > 0 {
      var n := |items| - 1;
      var init := items[..n];
      DecodeAllOk(init, decode, key);
      if DecodeAll(init, decode, key).Err? {
        var i :| 0 <= i < n && !decode(init[i]).Ok?;
        assert !decode(items[i]).Ok?;
      } else {
        assert forall i :: 0 <= i < n ==> init[i] == items[i];
      }
    }
  }

  /** Decoding items that give records with distinct keys yields exactly those records, in
      order. */
  lemma {:induction false} DecodeAllDistinct<S, T>(items: seq<S>, decode: S -> Result<T>, key: T -> string, ts: seq<T>)
    requires |items| == |ts| && UniqueKeys(ts, key)
    requires forall i :: 0 <= i < |items| ==> decode(items[i]) == Ok(ts[i])
    ensures DecodeAll(items, decode, key) == Ok(ts)
  {
    if |items| > 0 {
      var n := |items| - 1;
      assert UniqueKeys(ts[..n], key);
      DecodeAllDistinct(items[..n], decode, key, ts[..n]);
      assert key(ts[n]) !in Keys(ts[..n], key) by {
        forall i | 0 <= i < n ensures Keys(ts[..n], key)[i] != key(ts[n]) {
          assert ts[..n][i] == ts[i];
        }
      }
      PutKeys(ts[..n], key, ts[n]);
      LastSnoc(ts);
    }
  }

  /** The elements in order of first appearance, each once (the list of a Python set built from
      them, in one fixed order). */
  function Dedup<T(==)>(s: seq<T>): (r: seq<T>)
    ensures forall i :: 0 <= i < |r| ==> r[i] in s
    ensures forall i :: 0 <= i < |s| ==> s[i] in r
    ensures forall i, j :: 0 <= i < j < |r| ==> r[i] != r[j]
    ensures |r| <= |s|
  {
    if |s| == 0 then []
    else
      var d := Dedup(s[..|s| - 1]);
      assert forall i :: 0 <= i < |s| - 1 ==> s[i] == s[..|s| - 1][i];
      if s[|s| - 1] in d then d else d + [s[|s| - 1]]
  }
}
