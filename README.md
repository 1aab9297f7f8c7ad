# rentbot ledger, modelled in Dafny

rentbot keeps a shared house's rent roll in one Google Sheets worksheet. The sheet is a grid
of text cells:

- The roster block: rows 1 to 24. Row 1 holds headings. From row 2 on, one row per current
  tenant gives the name, the comma-separated months still unpaid ("8/2021,9/2021") and, in the
  newer engine, a stay schedule (FULLTIME, HALFTIME or IRREGULAR). At most 20 tenants
  (MAX_USERS) fit.
- One 25-row block per month (MONTH_BLOCK_SIZE), starting at row 25 for the first month. A
  block holds the label "m/yyyy", the total rent, the total utility cost, a heading row, and one
  line item per tenant: name, weeks stayed, and "True"/"False" for paid.

The operations read the whole grid and decode the roster and a month's block. They change the
decoded records and send the re-encoded regions back as one `batch_update`:

- `addTenant`, `removeTenant` and `markRentAsPaid`.
- `setTotalRent`, `setTotalUtility` and `setWeeksStayed`.
- `createNewMonth`, which also adds the month to every tenant's unpaid months.

`getAmountsOwed` splits each unpaid month's cost among the tenants who have not paid, in
proportion to the weeks they stayed, and sums the shares over every month someone still owes.

## Two engines

The project models two generations of this engine.

**`app/sheet.py`** (modules `Ledger` and `AppSheet`):
- The first month comes from the configuration.
- The roster has three columns.
- Numbers are read with the commas removed.
- A new month seeds each tenant's weeks from the stay schedule (4, 2 or 0).
- `markRentAsPaid` raises `MonthNotFoundError` when the month has no block.

**`sheet.py`** (modules `LegacyLedger` and `LegacySheet`):
- The first month is fixed at 8/2021.
- The roster has two columns.
- Cells are read with a plain `float()`.
- New line items start at 0 weeks.
- A line-item row must unpack into exactly three cells.
- `addTenant` re-reads the roster after creating the month. The newer engine writes the roster
  it read before creating the month, so the new month's debt is lost for everyone already on
  the roster (`Ledger.AddTenantDropsCreatedDebt`, `LegacyLedger.LegacyAddTenantKeepsCreatedDebt`).

## Structure

Each engine is modelled on two levels:
- A pure level. `Ledger`/`LegacyLedger` functions return an `Outcome`: the batches sent, then
  the result or the exception raised.
- An imperative level. `GoogleSheet`/`LegacyGoogleSheet` classes update a `Grid.Worksheet`
  object in place. Each method is proved to send exactly the batches of the matching function.

The decoding loops are methods proved equal to the functions that specify them.

The round-trip lemmas say that what an operation writes reads back as the records it meant to
write. They also say the operation keeps the blank "spacer" row at the end of every block
blank. Without that, one block's line items would run into the next block.

## Bill arithmetic

`app/getRents.py` contributes two pieces:
- `get_monthly_charges` (module `Charges`). The rent is the largest apartment charge dated from
  the 1st to the 28th. The utilities are:
  - the rest of those charges;
  - the electricity charges within a week either side of the 1st;
  - every internet charge.
- `_dollar_str_to_cents` (module `Cents`), which reads amounts such as "$1,234.56".

## Supporting modules

- `Text`, `Numbers` and `Calendar` model the Python built-ins the code relies on: `strip`,
  `split`, `join`, `int`, `float`, `str` and `datetime` month labels.
- `Dates` models `datetime.date` day numbers.
- `Dicts` models insertion-ordered dictionaries.
- `Grid` models the worksheet as a list of rows: `get_all_values` and `batch_update`.

The code says "weeks stayed" and "tenants" for the line items, and "current tenants" for the
roster. The model keeps those names.

## Model

| member | source | states |
|---|---|---|
| Calendar.FormatMonthYear | app/sheet.py:263 | a month's label is non-empty, starts with no whitespace, ends with a digit and holds no comma, so it survives the strip and split of an unpaid-months cell |
| Calendar.ParseMonthYearString | app/sheet.py:135-137 | every month it accepts is one `datetime` accepts; every failure is `Malformed` (ParseMonthYearStringPieces gives when it fails and what it reads) |
| Calendar.ParseMonthYearStringPieces | app/sheet.py:135-137 | succeeds exactly when there are two pieces around "/", both parse with `int()` and the pair is a month `datetime` accepts; the second piece is then the year and the first the month |
| Calendar.ParseFormatMonthYear | app/sheet.py:135-137 | parsing the label of any real month gives that month back |
| Calendar.FormatMonthYearInjective | app/sheet.py:263 | distinct months have distinct labels |
| Layout.BlockIndex | app/sheet.py:128-133 | the 0-based label row of a month at or after the first month is its start row minus one, and lies at or after row index 24 |
| Layout.EpochStartRow | app/sheet.py:128-133 | the first month's block starts at row 25, right after the roster block |
| Layout.StartRowAfterRoster | app/sheet.py:128-133 | every month at or after the first starts on a multiple of 25, at or after row 25 |
| Layout.MonthAtStartRow | app/sheet.py:128-133 | the start row determines the month: the row-to-month map inverts `_getMonthStartRow` |
| Layout.StartRowsApart | app/sheet.py:128-133 | distinct months' blocks start at least 25 rows apart, so blocks never overlap |
| Records.Canonical | app/sheet.py:238-240 | the roster as it reads back: same length, same names and schedules, each tenant's unpaid months deduplicated (`Dedup`, the model of a set) |
| Records.CanonicalUnique | app/sheet.py:211-222 | collecting unpaid months as sets keeps roster names distinct |
| Records.LinesPutWellFormed | app/sheet.py:378-380 | assigning a line item with a non-empty name keeps line items well formed when the name is present or there is room |
| Records.LinesDelWellFormed | app/sheet.py:403-404 | deleting a line item keeps line items well formed |
| Records.RosterPutWellFormed | app/sheet.py:377 | assigning a roster entry with a non-empty name and real months keeps the roster well formed when the name is present or there is room |
| Records.RosterDelWellFormed | app/sheet.py:401 | deleting a roster entry keeps the roster well formed |
| Numbers.LowDigits | app/sheet.py:265-271 | exactly k digits |
| Numbers.FixedPoint | app/sheet.py:265-271 | the digits of a number in fixed-point notation: only digits and the point, a digit at each end |
| Numbers.FormatDecimal | app/sheet.py:265-271 | a written number is non-empty, starts with no whitespace, ends with a digit and holds no comma |
| Numbers.HighLowDigits | app/sheet.py:265-271 | the high digits followed by the k low digits of m denote m |
| Numbers.ParseFixedPoint | app/sheet.py:162-164 | the fixed-point text of m at some scale reads back as m at that scale |
| Numbers.ParseFormatDecimal | app/sheet.py:162-164 | `float()` reads back exactly the number written into a cell |
| Text.StripLeft | app/sheet.py:201 | the result is no longer than the input and does not start with whitespace |
| Text.StripLeftRemoves | app/sheet.py:201 | the result of lstrip is a suffix of the input and everything removed is whitespace |
| Text.StripRight | app/sheet.py:201 | the result is no longer than the input and does not end with whitespace |
| Text.StripRightRemoves | app/sheet.py:201 | the result of rstrip is a prefix of the input and everything removed is whitespace |
| Text.Strip | app/sheet.py:201 | the result is no longer than the input and has no whitespace at either end |
| Text.StripUnchanged | app/sheet.py:201 | text without whitespace at either end is its own strip |
| Text.StripAllSpace | app/sheet.py:201 | text made only of whitespace strips to nothing |
| Text.StripLeftPadded | app/sheet.py:201 | leading whitespace before text that starts with none is exactly what is removed |
| Text.StripRightPadded | app/sheet.py:201 | trailing whitespace after text that ends with none is exactly what is removed |
| Text.StripPadded | app/sheet.py:201 | any whitespace around text with none at either end strips off, leaving that text whole |
| Text.Split | app/sheet.py:201 | `split` gives at least one piece, none containing the separator |
| Text.SplitJoin | app/sheet.py:238-240 | splitting a join gives back the pieces when none contains the separator |
| Text.JoinSplit | app/sheet.py:201 | joining the pieces of a split gives back the text |
| Text.JoinEnds | app/sheet.py:238-240 | a join of non-empty pieces starts with the first piece's first character and ends with the last piece's last character |
| Text.JoinStripUnchanged | app/sheet.py:238-240 | a join whose outer pieces have no outer whitespace is its own strip |
| Text.SplitStripJoin | app/sheet.py:201 | stripping and splitting a written unpaid-months cell gives back its labels |
| Text.Remove | app/sheet.py:162-164 | `replace(c, "")` leaves no c, shortens nothing else, and changes nothing when c is absent |
| Text.Lower | app/sheet.py:158-160 | `lower()` keeps the length |
| Text.NatToDigits | app/sheet.py:263 | `str(n)` is a digit string denoting n, with no leading zero unless n is 0 |
| Text.FormatInt | app/sheet.py:263 | `str(i)` is digits with at most a leading minus sign |
| Text.ParseInt | app/sheet.py:137 | `int()` accepts only text that is non-empty once stripped |
| Text.ParseDigitString | app/sheet.py:137 | `int()` reads a digit string as the number it denotes |
| Text.ParseNegatedDigitString | app/getRents.py:138-140 | `int()` reads a minus sign and digits as the negated number |
| Text.ParseFormatInt | app/sheet.py:137 | `int()` inverts `str()` on integers |
| Dicts.Keys | app/sheet.py:211-222 | the keys of a dictionary, one per entry, in order |
| Dicts.Get | app/sheet.py:363 | a lookup succeeds exactly for a present key and returns the entry stored under it |
| Dicts.Put | app/sheet.py:377 | `d[k] = v` replaces the entry in place or appends v, and adds nothing else |
| Dicts.PutKeys | app/sheet.py:377 | an assignment keeps the keys, or appends the new key last |
| Dicts.PutGet | app/sheet.py:377 | after an assignment, the key reads the new entry and every other key reads as before |
| Dicts.PutUnique | app/sheet.py:377 | an assignment keeps the keys distinct |
| Dicts.Del | app/sheet.py:401 | `del d[k]` only removes entries |
| Dicts.DelGet | app/sheet.py:401 | after `del`, the key is gone, every other key reads as before, and deleting an absent key changes nothing |
| Dicts.DelUnique | app/sheet.py:401 | deleting a present key from distinct keys drops exactly one entry and keeps the keys distinct |
| Dicts.DecodeAll | app/sheet.py:211-222 | a decoding loop that succeeds yields distinct keys and no more records than items |
| Dicts.DecodeAllErr | app/sheet.py:211-222 | a failed loop fails with the error of one of the items |
| Dicts.DecodeAllHolds | app/sheet.py:211-222 | every record kept is one of the decoded items' records |
| Dicts.DecodeAllOk | app/sheet.py:211-222 | the loop succeeds exactly when every item decodes |
| Dicts.DecodeAllDistinct | app/sheet.py:211-222 | items decoding to records with distinct keys yield exactly those records, in order |
| Dicts.Dedup | app/sheet.py:239 | the list of a set: each element once, nothing added, nothing lost |
| Grid.Overlay | app/sheet.py:382-385 | writing into a row leaves it as long as the longer of the row and the write |
| Grid.Apply | app/sheet.py:382-385 | a range write adds rows exactly when it reaches past the end |
| Grid.CellApply | app/sheet.py:382-385 | a write sets exactly the cells it covers and leaves every other cell as it was |
| Grid.RowsApply | app/sheet.py:382-385 | a write keeps the rows it misses and shortens no row |
| Grid.ApplyAllOutside | app/sheet.py:382-385 | a batch confined to some rows changes no cell outside them |
| Grid.ApplyAllAppend | app/sheet.py:382-385 | applying two concatenated batches is applying one after the other |
| Grid.ApplyBatchesSnoc | app/sheet.py:553-564 | sending one more batch applies it to the grid the earlier batches left |
| Grid.OneBatch | app/sheet.py:553-564 | sending one batch is applying it |
| Grid.MaxWidth | app/sheet.py:125-126 | the width of the widest row: no row is wider, and some row is that wide |
| Grid.AllValues | app/sheet.py:125-126 | `get_all_values` keeps the row count and pads every row to the widest |
| Grid.AllValuesCell | app/sheet.py:125-126 | a padded row shows the stored cells |
| Grid.At | app/sheet.py:189-190 | a cell index succeeds exactly inside the row |
| Grid.DataRows | app/sheet.py:139-151 | the run from the start index is consecutive rows holding data, stopped by the end or a row without data |
| Grid.RunBounded | app/sheet.py:139-151 | a blank first cell n rows below the start bounds the run by n |
| Grid.DataRowsAgree | app/sheet.py:139-151 | the run depends only on the rows it covers and the row that ends it |
| Grid.DataRowsExact | app/sheet.py:139-151 | n data rows followed by the end or a blank row are exactly the run |
| Grid.FramesAppend | app/sheet.py:382-385 | two batches within the same rows and columns remain so when concatenated |
| Grid.ApplyWidth | app/sheet.py:382-385 | a write within width w keeps every row within w and narrows nothing |
| Grid.WidthApplyAll | app/sheet.py:382-385 | the same for a batch: a grid already w wide stays exactly w wide |
| Grid.GetSuccessiveDataRows | app/sheet.py:139-151 | the while loop collects exactly the run of data rows |
| Grid.Worksheet.constructor | app/sheet.py:93-112 | a worksheet holding the given rows, with no batch sent |
| Grid.Worksheet.BatchUpdate | app/sheet.py:382-385 | the rows become the batch applied in order, and the batch is logged as one call |
| Regions.BlankRow | app/sheet.py:247-250 | a row of w empty cells |
| Regions.Blanks | app/sheet.py:247-250 | `range` of a count: that many blank rows, none for a negative count |
| Regions.ListWritesFrame | app/sheet.py:231-251 | a list and its clearing rows stay within their capacity rows and columns, and the grid reaches the end of the capacity |
| Regions.ListWritesCell | app/sheet.py:231-251 | after the list writes, each item's cells are in place, the rest of the capacity is blank, and every other cell is as before |
| Regions.ListWritesWritten | app/sheet.py:231-251 | the list writes leave exactly that, stated of the resulting grid |
| Regions.WrittenHeld | app/sheet.py:231-251 | with the row after the capacity blank, the written region holds the list |
| Regions.ListWritesHeld | app/sheet.py:231-251 | the list writes leave the region holding the list |
| Regions.HeldApplyOutside | app/sheet.py:231-251 | writes that miss the region and the row after it keep it holding the same list |
| Regions.HeldCells | app/sheet.py:231-251 | in the padded grid, each item's cells show in its row |
| Regions.HeldEnd | app/sheet.py:231-251 | in the padded grid, the row after the last item holds no data |
| Regions.HeldRead | app/sheet.py:139-151 | scanning a held list with non-empty first cells finds exactly one row per item, each starting with the item's cells |
| Regions.ShowsEach | app/sheet.py:139-151 | a run that shows the items has one row per item, each starting with its encoding |
| Regions.EachShows | app/sheet.py:139-151 | conversely, such rows show the items |
| Regions.HeldShows | app/sheet.py:139-151 | a region holding encoded records shows them in the padded grid |
| Spacers.BlockSpacer | app/sheet.py:81-97 | the last row of every month block, and the row after its line-item capacity, is a blank spacer |
| Spacers.BlockIndexResidue | app/sheet.py:128-133 | a block's label row index leaves 24 on division by 25 |
| Spacers.SpacersOutside | app/sheet.py:247-250 | a batch within the roster rows or within one block above its spacer keeps every spacer blank |
| Spacers.EncodeRosterKeepsSpacers | app/sheet.py:224-251 | the roster writes keep every spacer blank |
| Spacers.EncodeMonthBlockKeepsSpacers | app/sheet.py:253-302 | a month's writes keep every spacer blank |
| Spacers.RosterReadWellFormed | app/sheet.py:211-222 | with its spacer blank, a roster that reads has non-empty distinct names, real months and at most 20 tenants |
| Spacers.BlockRunBounded | app/sheet.py:193 | with the spacers blank, a block's run of line items is at most 20 rows |
| Spacers.MonthReadWellFormed | app/sheet.py:178-196 | with the spacers blank, a month that reads has well-formed line items |
| Spacers.MonthBoundedWellFormed | app/sheet.py:178-196 | the same for any rows whose run is at most 20 long |
| Spacers.LinesNamed | app/sheet.py:166-176 | line items decoded from data rows have non-empty names |
| Spacers.RosterWriteHeld | app/sheet.py:224-251 | the roster writes leave the roster region holding the roster and the spacers blank |
| Spacers.BlockWriteHeld | app/sheet.py:253-302 | a month's writes leave its block holding the record and the spacers blank |
| Spacers.BlockWriteKeepsRoster | app/sheet.py:253-302 | a month's writes leave the roster region as it was |
| Spacers.RosterAndBlockHeld | app/sheet.py:382-385 | roster writes then month writes in one batch leave both regions holding what was written and the spacers blank |
| Codec.ToBoolFormatBool | app/sheet.py:158-160 | a written paid flag `str(b)` reads back as b |
| Codec.ToBoolCases | app/sheet.py:158-160 | letter case does not matter; padded text, "yes" and the empty cell read as false |
| Codec.ToFloat | app/sheet.py:162-164 | a cell reads exactly when it parses as a number once its commas are gone; otherwise it is malformed |
| Codec.ToFloatFormatDecimal | app/sheet.py:162-164 | a written number reads back exactly |
| Codec.ToFloatIgnoresCommas | app/sheet.py:162-164 | thousands separators make no difference |
| Codec.ToFloatGrouped | test.py:106-131 | "1,697.20"-style cells (commas inserted into a written number) read as the number |
| Codec.TenantFromRow | app/sheet.py:172-175 | a line-item row needs three cells: name from the first, paid from the third, extra cells ignored |
| Codec.TenantsFromMonthRows | app/sheet.py:166-176 | decoded line items have distinct names and are no more than the rows |
| Codec.GetTenantsFromMonthRows | app/sheet.py:166-176 | the loop computes exactly `TenantsFromMonthRows` |
| Codec.TotalAt | app/sheet.py:189-190 | a total is the second cell of its row read by `_toFloat`; a missing cell is an error |
| Codec.BlockRecord | app/sheet.py:188-196 | a block record is of the requested month, with distinct line-item names, no more than its run of rows |
| Codec.MonthBlockData | app/sheet.py:178-196 | no block exactly when the label row is missing or empty; otherwise the record at the month's start row |
| Codec.MonthBlockTenants | app/sheet.py:193-194 | a month read as a record has the line items decoded from the run after its heading |
| Codec.ScheduleFromCell | app/sheet.py:205-208 | HALFTIME and IRREGULAR exactly for those values; anything else, including an unknown value, is FULLTIME |
| Codec.ScheduleRoundTrip | app/sheet.py:205-208 | a written schedule reads back; unknown text reads as FULLTIME |
| Codec.MonthsFromTokens | app/sheet.py:202-204 | empty pieces are skipped, every month returned is real, and a cell of only empty pieces gives no months |
| Codec.CurrentTenantFromRow | app/sheet.py:198-209 | a roster row needs three cells: name, months of the second cell, schedule of the third |
| Codec.GetCurrentTenant | app/sheet.py:198-209 | the loop computes exactly `CurrentTenantFromRow` |
| Codec.MonthsFromTokensPrefixError | app/sheet.py:202-204 | once a piece fails to parse, the whole cell fails |
| Codec.RosterFromRows | app/sheet.py:218-221 | decoded roster entries have distinct names and are no more than the rows |
| Codec.CurrentTenantData | app/sheet.py:211-222 | the roster is decoded from the run of data rows from row index 1 |
| Codec.GetCurrentTenantData | app/sheet.py:211-222 | the scan computes exactly `CurrentTenantData` |
| Codec.MonthLabels | app/sheet.py:239 | one label per month, in order |
| Codec.RosterRow | app/sheet.py:236-242 | a roster row has three cells: name, unpaid months, schedule |
| Codec.RosterRows | app/sheet.py:233-245 | one three-cell row per roster entry, in order |
| Codec.EncodeRoster | app/sheet.py:224-251 | with at most 20 tenants, the roster writes stay in row indices 1 to 20 and columns A to C |
| Codec.TenantRow | app/sheet.py:285 | a line-item row has three cells: name, weeks, paid |
| Codec.TenantRows | app/sheet.py:281-288 | one three-cell row per line item, in order |
| Codec.HeaderWritesFrame | app/sheet.py:261-275 | the label, totals and heading writes stay in the block's first four rows and columns A to C |
| Codec.EncodeMonthBlock | app/sheet.py:253-302 | with at most 20 line items, a month's writes stay inside its own 24 rows; always within columns A to C |
| Codec.BlockWritesFrame | app/sheet.py:253-302 | the same for the writes at any block start row |
| Codec.ListWritesFrameAny | app/sheet.py:277-295 | the list writes stay within the columns however long the list |
| Codec.HeaderWritesWritten | app/sheet.py:261-275 | the header writes leave the label, totals and headings in place and other rows as they were |
| Codec.TenantRowReads | app/sheet.py:172-175 | a written line-item row reads back as its record |
| Codec.ShownTenantsRead | app/sheet.py:166-176 | rows showing line items with distinct names read as those line items |
| Codec.ReadMonthBlock | app/sheet.py:178-196 | a block whose cells read as a record reads as that record |
| Codec.ShownTotalsRead | app/sheet.py:189-190 | the totals cells of a shown block read as its totals |
| Codec.ShownMonthBlockReads | app/sheet.py:178-196 | a block showing a record with distinct names reads as the record |
| Codec.HeaderAndListHeld | app/sheet.py:253-302 | the header cells survive the line-item writes that follow them |
| Codec.BlockWritesHeld | app/sheet.py:253-302 | a block's writes leave the block holding the record |
| Codec.EncodeMonthBlockHeld | app/sheet.py:253-302 | `_updateMonthBlockData` leaves the month's block holding the record |
| Codec.BlockHeldApplyOutside | app/sheet.py:253-302 | writes elsewhere leave a block holding the same record |
| Codec.BlockHeldShows | app/sheet.py:178-196 | a held block shows its record in the padded grid |
| Codec.BlockHeldReads | app/sheet.py:178-196 | a held block reads back as its record |
| Codec.MonthBlockRoundTrip | app/sheet.py:253-302 | after a month's writes, reading the month gives back exactly the record written |
| Codec.TokensParse | app/sheet.py:202-204 | non-empty pieces that each parse give exactly those months |
| Codec.LabelsParse | app/sheet.py:202-204 | the labels of real months parse back to the months |
| Codec.LabelsSplit | app/sheet.py:201 | the pieces of a joined list of labels are the labels |
| Codec.MonthsCellRoundTrip | app/sheet.py:238-240 | a written unpaid-months cell reads back as the months, each once |
| Codec.RosterRowReads | app/sheet.py:198-209 | a written roster row reads back as its entry, unpaid months as a set |
| Codec.RowWithMonthsReads | app/sheet.py:198-209 | a row whose months cell reads decodes to that name, those months and the schedule of the third cell |
| Codec.ShownRosterRead | app/sheet.py:211-222 | rows showing roster entries read as those entries, unpaid months as sets |
| Codec.EncodeRosterHeld | app/sheet.py:224-251 | the roster writes leave the roster region holding the roster |
| Codec.RosterHeldReads | app/sheet.py:211-222 | a region holding a well-formed roster reads back as it |
| Codec.RosterRoundTrip | app/sheet.py:224-251 | after the roster writes, reading the roster gives back the tenants written, unpaid months as sets |
| Ledger.OweMonth | app/sheet.py:328-329 | the same tenants in the same order, each now also owing the month |
| Ledger.SeedLines | app/sheet.py:333-344 | one unpaid line item per roster tenant, in order, with the schedule's initial weeks |
| Ledger.CreationWrites | app/sheet.py:304-347 | nothing to write when the label row holds data; an error only when the roster does not read |
| Ledger.AppendMonth | app/sheet.py:328-329 | the loop computes exactly `OweMonth` |
| Ledger.SeedLineItems | app/sheet.py:333-344 | the comprehension computes exactly `SeedLines` |
| Ledger.CreateMonthBlockData | app/sheet.py:304-347 | the method computes exactly `CreationWrites` |
| Ledger.CreateNewMonth | app/sheet.py:553-564 | a month returned after creation is the month requested; failures are malformed cells |
| Ledger.MonthOrCreate | app/sheet.py:370-372 | the month returned is the requested one; at most one batch, none when the block exists |
| Ledger.AddTenant | app/sheet.py:349-385 | a present name or a full roster writes nothing and succeeds |
| Ledger.RemoveTenant | app/sheet.py:387-410 | an absent name writes nothing; at most one batch |
| Ledger.KeepOtherMonths | app/sheet.py:427-432 | keeps exactly the months whose year and month both differ from the month paid |
| Ledger.PaidMonth | app/sheet.py:437-438 | marking paid keeps the month |
| Ledger.MarkRentAsPaid | app/sheet.py:412-443 | an absent name writes nothing; a present name with no block raises MonthNotFoundError and writes nothing; at most one batch |
| Ledger.SetTotalRent | app/sheet.py:445-462 | on success, the month as read or created is written with the new total rent; on failure only the creation batch was sent |
| Ledger.SetTotalUtility | app/sheet.py:464-481 | the same for the total utility cost |
| Ledger.WeeksMonth | app/sheet.py:501 | replacing weeks keeps the month |
| Ledger.SetWeeksStayed | app/sheet.py:483-505 | an absent name writes nothing |
| Ledger.OweMonthWellFormed | app/sheet.py:328-329 | owing one more real month keeps the roster well formed |
| Ledger.SeedLinesWellFormed | app/sheet.py:333-344 | seeded line items of a well-formed roster are well formed |
| Ledger.CreateNewMonthReads | app/sheet.py:553-564 | creating a missing month sends one batch; the month then reads as zero totals with one unpaid line item per tenant, and every tenant owes the month |
| Ledger.CreateIdempotent | app/sheet.py:322-323 | after createNewMonth, creating the month again writes nothing |
| Ledger.MonthOrCreateReads | app/sheet.py:370-372 | read-or-create keeps the spacers blank and, on success, the grid reads as the returned well-formed record; the only failure is a malformed cell |
| Ledger.MonthOrCreateNew | app/sheet.py:370-372 | for a missing month, one batch and the returned record is the new month seeded from the roster |
| Ledger.MonthWriteReads | app/sheet.py:253-302 | a month's writes on a grid with blank spacers read back as the record, and the spacers stay blank |
| Ledger.RosterAndMonthWriteReads | app/sheet.py:382-385 | the roster and month writes in one batch read back as written, and the spacers stay blank |
| Ledger.AddTenantWrites | app/sheet.py:370-385 | past the guards: any creation batch, then roster with the newcomer and month with the newcomer's line item |
| Ledger.AddTenantWriteReads | app/sheet.py:374-385 | addTenant's last batch reads back: the roster with the newcomer last, owing only this month, and the month with the newcomer's line item |
| Ledger.AddTenantReads | app/sheet.py:349-385 | addTenant of a new name with room: the roster reads as before plus the newcomer, the month as before plus the newcomer's line item |
| Ledger.AddTenantDropsCreatedDebt | app/sheet.py:370-385 | when addTenant creates the month, the stale roster it writes loses the new month from every earlier tenant's unpaid months |
| Ledger.RemoveTenantReads | app/sheet.py:387-410 | after removeTenant, the roster reads without the name and the month, if it has a block, without the name's line item |
| Ledger.KeepOtherMonthsDropsMore | app/sheet.py:427-432 | paying for 9/2021 also clears 8/2021 and 9/2022 from the unpaid months |
| Ledger.DropPaidMonth | app/sheet.py:419-432 | the intended filter removes the month paid for and keeps every other month, as often as it was listed |
| Ledger.KeepOtherMonthsAgrees | app/sheet.py:427-432 | the filter as written equals the intended one exactly when no other unpaid month shares the year or the month of the month paid for |
| Ledger.DropPaidMonthKeepsOthers | app/sheet.py:419-432 | the intended filter, paying for 9/2021, keeps 8/2021, 9/2022 and 10/2022 |
| Ledger.IntendedPaidEntry | app/sheet.py:419-432 | the intended roster entry keeps the name and schedule and loses exactly the month paid for |
| Ledger.IntendedPaidEntryWellFormed | app/sheet.py:419-432 | writing the intended entry keeps the roster well formed |
| Ledger.PaidMonthGet | app/sheet.py:437-438 | marking paid changes only that line item's flag |
| Ledger.PaidMonthWellFormed | app/sheet.py:437-438 | marking paid keeps line items well formed |
| Ledger.PaidEntryWellFormed | app/sheet.py:427-432 | filtering a tenant's unpaid months keeps the roster well formed |
| Ledger.MarkRentAsPaidWrites | app/sheet.py:412-443 | for a present name and an existing block: one batch, the filtered roster and the month with the line item paid |
| Ledger.MarkRentAsPaidReads | app/sheet.py:412-443 | after markRentAsPaid, the roster and month read back with the months filtered and the line item paid |
| Ledger.SetTotalRentReads | app/sheet.py:445-462 | on success the month reads with the new total rent and everything else as before |
| Ledger.SetTotalUtilityReads | app/sheet.py:464-481 | on success the month reads with the new utility total and everything else as before |
| Ledger.SetWeeksStayedUnknownTenant | app/sheet.py:501 | KeyError exactly when the tenant is on the roster but has no line item in the month, after any creation batch |
| Ledger.WeeksMonthGet | app/sheet.py:501 | replacing weeks changes only that line item's weeks |
| Ledger.WeeksMonthWellFormed | app/sheet.py:501 | replacing weeks keeps line items well formed |
| Ledger.SetWeeksStayedReads | app/sheet.py:483-505 | on success the month reads with the tenant's weeks replaced and everything else as before |
| AppSheet.SentSnoc | app/sheet.py:553-564 | a final batch after the earlier ones completes an operation's batches |
| AppSheet.SentOne | app/sheet.py:382-385 | a single batch completes a one-batch operation |
| AppSheet.MonthCreatedValid | app/sheet.py:553-564 | createNewMonth keeps the spacers blank |
| AppSheet.RemoveTenantKeepsSpacers | app/sheet.py:387-410 | removeTenant keeps the spacers blank |
| AppSheet.MarkRentAsPaidKeepsSpacers | app/sheet.py:412-443 | markRentAsPaid keeps the spacers blank |
| AppSheet.SetWeeksStayedKeepsSpacers | app/sheet.py:483-505 | setWeeksStayed keeps the spacers blank |
| AppSheet.GoogleSheet.constructor | app/sheet.py:93-112 | the sheet is bound to its first month and worksheet |
| AppSheet.GoogleSheet.CreateNewMonth | app/sheet.py:553-564 | the worksheet goes through exactly the batches of `Ledger.CreateNewMonth`, returns what it does, and keeps the sheet valid |
| AppSheet.GoogleSheet.ReadOrCreateMonth | app/sheet.py:370-372 | exactly the batches and result of `Ledger.MonthOrCreate`; keeps the sheet valid |
| AppSheet.GoogleSheet.AddTenant | app/sheet.py:349-385 | exactly the batches and result of `Ledger.AddTenant` |
| AppSheet.GoogleSheet.RemoveTenant | app/sheet.py:387-410 | exactly the batches and result of `Ledger.RemoveTenant`; keeps the sheet valid |
| AppSheet.GoogleSheet.MarkRentAsPaid | app/sheet.py:412-443 | exactly the batches and result of `Ledger.MarkRentAsPaid`; keeps the sheet valid |
| AppSheet.GoogleSheet.SetTotalRent | app/sheet.py:445-462 | exactly the batches and result of `Ledger.SetTotalRent`; keeps the sheet valid |
| AppSheet.GoogleSheet.SetTotalUtility | app/sheet.py:464-481 | exactly the batches and result of `Ledger.SetTotalUtility`; keeps the sheet valid |
| AppSheet.GoogleSheet.SetWeeksStayed | app/sheet.py:483-505 | exactly the batches and result of `Ledger.SetWeeksStayed`; keeps the sheet valid |
| AppSheet.GoogleSheet.GetAmountsOwed | app/sheet.py:522-551 | reads only, and returns `Proration.AmountsOwed` of the worksheet |
| Proration.Weeks | app/sheet.py:508 | the weeks stayed of each line item, in order |
| Proration.Divisor | app/sheet.py:508-511 | the divisor is never zero |
| Proration.Unpaid | app/sheet.py:515 | exactly the unpaid line items, in order |
| Proration.GetAmountsOwedForMonth | app/sheet.py:507-520 | the loop computes exactly `AmountsOwedForMonth` |
| Proration.ShareComputed | app/sheet.py:517-519 | the loop's arithmetic is cost times weeks over the divisor |
| Proration.Listed | app/sheet.py:516-519 | one entry per item, in order, carrying its share |
| Proration.SharesOfDistinct | app/sheet.py:516-519 | with distinct names, the loop adds one entry per item, in order |
| Proration.ListedSnoc | app/sheet.py:516-519 | listing one more item appends its entry |
| Proration.UnpaidDistinct | app/sheet.py:515 | the unpaid items keep distinct names |
| Proration.AmountsOwedForMonthListed | app/sheet.py:507-520 | the dictionary holds exactly the unpaid line items, in order, each with its share |
| Proration.AmountsOwedForMonthGet | app/sheet.py:507-520 | a name has an entry exactly when it is an unpaid line item, and the entry is its share |
| Proration.AlignedGet | app/sheet.py:516-519 | dictionaries with the same names in order find a name at the same position |
| Proration.GetUnique | app/sheet.py:549 | in a dictionary with distinct keys, an entry's key finds that entry |
| Proration.Amounts | app/sheet.py:549 | the amounts of a dictionary, one per entry, in order |
| Proration.Portions | app/sheet.py:517-519 | each number's portion of the cost |
| Proration.PortionsSum | app/sheet.py:517-519 | the portions add up to the portion of the sum |
| Proration.SplitShare | app/sheet.py:517-519 | splitting the weeks splits the share |
| Proration.ListedSum | app/sheet.py:516-519 | items' shares add up to the cost in proportion to their weeks |
| Proration.AmountsOwedForMonthSum | app/sheet.py:507-520 | a month's amounts add up to cost times unpaid weeks over the divisor |
| Proration.NobodyPaidOwesWholeCost | app/sheet.py:507-520 | with nobody paid and some weeks stayed, the amounts add up to the whole cost |
| Proration.WholeShare | app/sheet.py:517-519 | the portion of everything is the whole |
| Proration.AllUnpaid | app/sheet.py:515 | with nobody paid, every item is unpaid |
| Proration.ZeroCostOwesNothing | app/sheet.py:507-520 | a month with no cost charges every unpaid tenant 0 |
| Proration.ZeroCostShares | app/sheet.py:516-519 | the loop's entries are 0 for a month with no cost |
| Proration.ShareNonNegative | app/sheet.py:517-519 | shares are never negative when costs and weeks are not |
| Proration.TotalWeeksNonNegative | app/sheet.py:508 | non-negative weeks sum to a non-negative total |
| Proration.SumNonNegative | app/sheet.py:508 | non-negative numbers sum to a non-negative total |
| Proration.MonthsOwed | app/sheet.py:538-540 | the union of unpaid months lists each month once |
| Proration.MonthsOwedMembers | app/sheet.py:538-540 | a month is owed exactly when some tenant lists it |
| Proration.AllUnpaidMonthsMembers | app/sheet.py:538-540 | the concatenated lists hold exactly the months some tenant lists |
| Proration.MonthAt | app/sheet.py:544 | a month reads as the record its block holds; a missing block or a month before the first is an error |
| Proration.ReadEach | app/sheet.py:543-544 | reading succeeds with one record per month |
| Proration.ReadEachOk | app/sheet.py:543-544 | reading succeeds exactly when every month reads, and the k-th record is the k-th month's |
| Proration.ReadEachStops | app/sheet.py:543-544 | the first month that fails stops the reading with its error |
| Proration.ReadEachSnoc | app/sheet.py:543-544 | reading one more month appends its record |
| Proration.ReadEachAll | app/sheet.py:543-544 | reading the whole prefix is reading the list |
| Proration.AddMonth | app/sheet.py:546-549 | the inner loop keeps the names and their order |
| Proration.Accumulate | app/sheet.py:543-549 | the outer loop keeps the names and their order |
| Proration.AccumulateSnoc | app/sheet.py:543-549 | one more month adds its amounts to the running totals |
| Proration.AccumulateCharged | app/sheet.py:543-549 | each running total ends as its start plus what every month charges that name |
| Proration.Zeros | app/sheet.py:542 | 0 for every current tenant, in roster order |
| Proration.AmountsOwedRosterError | app/sheet.py:534 | a roster that does not read fails the computation as malformed |
| Proration.AmountsOwedOk | app/sheet.py:522-551 | with the roster read, success exactly when the roster is empty or every owed month reads |
| Proration.AmountsOwedTotals | app/sheet.py:522-551 | totals are keyed by the roster names in order, each the sum of what the owed months charge that name |
| Proration.EmptyRosterOwesNothing | app/sheet.py:535-536 | an empty roster owes nothing |
| Proration.GetAmountsOwed | app/sheet.py:522-551 | the loops compute exactly `AmountsOwed` |
| Proration.AddMonthLoop | app/sheet.py:546-549 | the inner loop computes exactly `AddMonth` |
| ProrationExamples.TestTenantsDistinct | test.py:10-35 | the eight test tenants have distinct names |
| ProrationExamples.NothingPostedOwesNothing | test.py:38-42 | a month with nothing posted owes 0 under every tenant's name, in order |
| ProrationExamples.NothingPostedListed | test.py:38-42 | with nobody paid, every test tenant is charged, in order |
| ProrationExamples.NobodyPaidListed | app/sheet.py:507-520 | a month nobody has paid charges every tenant, in order |
| ProrationExamples.PartlyPaidCharges | test.py:45-49 | the partly paid month charges exactly its three unpaid tenants 2/23, 1/23 and 2/23 of 2110.18 |
| ProrationExamples.PartlyPaidUnpaid | test.py:10-35 | three of the eight have not paid |
| ProrationExamples.UnpaidFifthSeventhEighth | app/sheet.py:515 | eight items with only the fifth, seventh and eighth unpaid filter to those three |
| ProrationExamples.UnpaidPrefix | app/sheet.py:515 | the filter of a prefix one item longer |
| ProrationExamples.PartlyPaidWeeks | test.py:10-35 | the test tenants stayed 23 weeks |
| ProrationExamples.PartlyPaidCost | test.py:10-35 | the partly paid month cost 2110.18 |
| LegacyCodec.PlainFloat | sheet.py:132-133 | a cell that does not read as a number is malformed |
| LegacyCodec.PlainFloatFormatDecimal | sheet.py:132-133 | a written number reads back exactly |
| LegacyCodec.ParseFloatChars | sheet.py:132-133 | a cell that reads as a number has no comma once stripped |
| LegacyCodec.PlainFloatRejectsCommas | sheet.py:132-133 | a cell holding a comma never reads as a number |
| LegacyCodec.GroupedCellsDiffer | sheet.py:132-133 | on "1,697.20"-style cells the newer engine reads the number and the older one fails |
| LegacyCodec.LegacyLineFromRow | sheet.py:137-138 | a line-item row must have exactly three cells; weeks read with `float()` |
| LegacyCodec.LegacyLinesFromRows | sheet.py:136-138 | decoded line items have distinct names and are no more than the rows |
| LegacyCodec.LegacyGetLines | sheet.py:136-138 | the loop computes exactly `LegacyLinesFromRows` |
| LegacyCodec.LegacyTotalAt | sheet.py:132-133 | a total is the second cell of its row read with `float()` |
| LegacyCodec.LegacyBlockRecord | sheet.py:130-140 | the record of the requested month, its line items decoded from the run after its heading |
| LegacyCodec.LegacyMonthBlockData | sheet.py:123-140 | no block exactly when the label row is missing or empty; otherwise the record at the month's start row |
| LegacyCodec.LegacyTenantFromRow | sheet.py:148-155 | a roster row needs two cells: the name, and the months of the second cell |
| LegacyCodec.LegacyGetTenant | sheet.py:148-155 | the loop computes exactly `LegacyTenantFromRow` |
| LegacyCodec.LegacyRoster | sheet.py:142-156 | decoded roster entries have distinct names and are no more than the run of data rows |
| LegacyCodec.LegacyGetRoster | sheet.py:142-156 | the scan computes exactly `LegacyRoster` |
| LegacyCodec.LegacyRosterRow | sheet.py:171 | a roster row has two cells |
| LegacyCodec.LegacyRosterRows | sheet.py:170-172 | one two-cell row per entry, in order |
| LegacyCodec.EncodeLegacyRoster | sheet.py:158-180 | with at most 20 entries, the roster writes stay in row indices 1 to 20, within two columns |
| LegacyCodec.LegacyCanonical | sheet.py:171 | the roster as it reads back: each entry's unpaid months as a set |
| LegacyCodec.LegacyPutWellFormed | sheet.py:276 | assigning an entry with a non-empty name and real months keeps the roster well formed when there is room |
| LegacyCodec.LegacyDelWellFormed | sheet.py:298 | deleting an entry keeps the roster well formed |
| LegacyCodec.LegacyRosterRowReads | sheet.py:146-154 | a written roster row reads back as its entry, months as a set |
| LegacyCodec.ShownLegacyRosterRead | sheet.py:142-156 | rows showing entries read as those entries |
| LegacyCodec.LegacyRosterHeldReads | sheet.py:142-156 | a region holding a well-formed roster reads back as it |
| LegacyCodec.LegacyRosterWriteHeld | sheet.py:158-180 | the roster writes leave the region holding the roster and the spacers blank |
| LegacyCodec.LegacyRosterRoundTrip | sheet.py:158-180 | after the roster writes, reading the roster gives back the entries written, months as sets |
| LegacyCodec.NarrowApplyAll | sheet.py:182-217 | writes within three columns keep every row at most three cells wide |
| LegacyCodec.NarrowHeldWidth | sheet.py:123-140 | in a narrow grid with a block written, every padded row is exactly three cells wide |
| LegacyCodec.ShownLegacyLinesRead | sheet.py:136-138 | rows of exactly a line item's three cells read as those line items |
| LegacyCodec.LegacyShownTotalsRead | sheet.py:132-133 | the totals cells of a shown block read as its totals |
| LegacyCodec.LegacyReadMonthBlock | sheet.py:123-140 | a block whose cells read as a record reads as that record |
| LegacyCodec.LegacyShownMonthRead | sheet.py:123-140 | in a grid of three-cell rows, a block showing a record reads as it |
| LegacyCodec.LegacyBlockHeldReads | sheet.py:123-140 | a held block in a narrow grid reads back as its record |
| LegacyCodec.LegacyBlockWriteHeld | sheet.py:182-217 | a month's writes on a narrow grid keep it narrow and leave the block holding the record |
| LegacyCodec.LegacyMonthRoundTrip | sheet.py:182-217 | after a month's writes on a narrow grid, reading the month gives back exactly the record written |
| LegacyCodec.WideGridUnreadable | sheet.py:137 | one stored cell past column C anywhere, even an empty one, makes every month with line items unreadable |
| LegacyCodec.LegacyRosterReadWellFormed | sheet.py:142-156 | with its spacer blank, a roster that reads is well formed |
| LegacyCodec.LegacyMonthReadWellFormed | sheet.py:123-140 | with the spacers blank, a month that reads has well-formed line items |
| LegacyCodec.LegacyMonthBoundedWellFormed | sheet.py:123-140 | the same for any rows whose run is at most 20 long |
| LegacyCodec.LegacyLinesNamed | sheet.py:136-138 | line items decoded from data rows have non-empty names |
| LegacyCodec.LegacyRosterAndMonthWriteReads | sheet.py:278-282 | roster and month writes in one batch on a narrow grid read back as written, and the grid stays narrow with blank spacers |
| LegacyCodec.LegacyMonthWriteReads | sheet.py:182-217 | a month's writes on a narrow grid read back as the record, and the grid stays narrow with blank spacers |
| LegacyLedger.LegacyOweMonth | sheet.py:239-240 | the same tenants in order, each now also owing the month |
| LegacyLedger.ZeroLines | sheet.py:244 | one unpaid line item of zero weeks per roster tenant, in order |
| LegacyLedger.LegacyCreationWrites | sheet.py:219-247 | nothing to write when the label row holds data; an error only when the roster does not read |
| LegacyLedger.LegacyAppendMonth | sheet.py:239-240 | the loop computes exactly `LegacyOweMonth` |
| LegacyLedger.ZeroLineItems | sheet.py:244 | the comprehension computes exactly `ZeroLines` |
| LegacyLedger.LegacyCreateMonthBlockData | sheet.py:219-247 | the method computes exactly `LegacyCreationWrites` |
| LegacyLedger.LegacyMonthOrCreate | sheet.py:343-347 | the requested month; at most one batch, none when the block exists |
| LegacyLedger.LegacyAddWrites | sheet.py:275-282 | keeps the batches already sent and adds at most one, exactly when it succeeds |
| LegacyLedger.LegacyAddTenant | sheet.py:249-282 | a present name or full roster writes nothing; at most two batches, one when the block exists |
| LegacyLedger.LegacyRemoveTenant | sheet.py:284-306 | an absent name writes nothing; a missing block raises before writing; at most one batch |
| LegacyLedger.LegacyMarkRentAsPaid | sheet.py:308-332 | an absent name writes nothing; a missing block raises before writing; at most one batch |
| LegacyLedger.LegacySetTotalRent | sheet.py:334-353 | on success, the month as read or created is written with the new total rent; on failure only the creation batch was sent |
| LegacyLedger.LegacySetTotalUtility | sheet.py:355-374 | the same for the total utility cost |
| LegacyLedger.LegacySetWeeksStayed | sheet.py:376-400 | an absent name writes nothing |
| LegacyLedger.LegacyOweMonthWellFormed | sheet.py:239-240 | owing one more real month keeps the roster well formed |
| LegacyLedger.ZeroLinesWellFormed | sheet.py:244 | seeded line items of a well-formed roster are well formed |
| LegacyLedger.ZeroLinesNames | sheet.py:244 | a new month's line items depend only on the roster names |
| LegacyLedger.LegacyCreationReads | sheet.py:219-247 | after creation, the roster reads with the month owed by everyone and the month reads as zero totals with zero-week unpaid line items |
| LegacyLedger.LegacyMonthOrCreateReads | sheet.py:343-347 | read-or-create keeps the grid narrow with blank spacers and, on success, reads as the returned record |
| LegacyLedger.LegacyMonthOrCreateNew | sheet.py:343-347 | for a missing month, one batch and the returned record is the new month |
| LegacyLedger.TwoBatches | sheet.py:270-282 | sending two batches applies them in order |
| LegacyLedger.LegacyAddWritesOk | sheet.py:275-282 | addTenant's last step sends the roster with the newcomer and the month with its line item |
| LegacyLedger.LegacyAddWriteReads | sheet.py:275-282 | that batch reads back as the roster with the newcomer last and the month with the newcomer's zero-week line item |
| LegacyLedger.LegacyAddTenantReads | sheet.py:249-282 | addTenant on an existing block: one batch; roster and month read as before plus the newcomer |
| LegacyLedger.LegacyAddTenantKeepsCreatedDebt | sheet.py:270-282 | when addTenant creates the month, every earlier tenant still owes it afterwards |
| LegacyLedger.LegacyAddTwoBatches | sheet.py:270-282 | on a missing block, the creation batch then addTenant's own |
| LegacyLedger.LegacyAddAfterCreation | sheet.py:270-282 | after creation, addTenant's last step runs on the grid creation left |
| LegacyLedger.LegacyNewMonthAdd | sheet.py:277 | the newcomer's line item added to a new month gives the new month of the longer roster |
| LegacyLedger.LegacyCreatedDebtKept | sheet.py:270-276 | the roster re-read after creation owes the month for everyone, newcomer last |
| LegacyLedger.LegacyRemoveTenantReads | sheet.py:284-306 | after removeTenant, the roster and the month read without the name |
| LegacyLedger.LegacyPaidEntryWellFormed | sheet.py:322-324 | filtering a tenant's unpaid months keeps the roster well formed |
| LegacyLedger.LegacyIntendedPaidEntry | sheet.py:315-324 | the intended roster entry keeps the name and loses exactly the month paid for |
| LegacyLedger.LegacyPaidEntryDropsMore | sheet.py:322-324 | paying for 9/2021 leaves 10/2022 alone of four unpaid months, where the intended entry keeps three |
| LegacyLedger.LegacyIntendedPaidEntryWellFormed | sheet.py:315-324 | writing the intended entry keeps the roster well formed |
| LegacyLedger.LegacyMarkRentAsPaidReads | sheet.py:308-332 | after markRentAsPaid, the roster reads with the months filtered and the month with the line item paid |
| LegacyLedger.LegacySetTotalRentReads | sheet.py:334-353 | on success the month reads with the new total rent and everything else as before |
| LegacyLedger.LegacySetTotalUtilityReads | sheet.py:355-374 | on success the month reads with the new utility total and everything else as before |
| LegacyLedger.LegacySetWeeksStayedUnknownTenant | sheet.py:396 | KeyError exactly when the tenant is on the roster but has no line item in the month, after any creation batch |
| LegacyLedger.LegacySetWeeksStayedReads | sheet.py:376-400 | on success the month reads with the tenant's weeks replaced and everything else as before |
| LegacyProration.AsCurrent | sheet.py:31-34 | the older roster entries as newer ones with the same names and unpaid months |
| LegacyProration.LegacyMonthsOwed | sheet.py:431-433 | the union of unpaid months lists each month once |
| LegacyProration.LegacyMonthsOwedMembers | sheet.py:431-433 | a month is owed exactly when some tenant lists it |
| LegacyProration.LegacyMonthAt | sheet.py:437 | a month reads as the record its block holds; a missing block or a month before 8/2021 is an error |
| LegacyProration.LegacyAmountsOwedRosterError | sheet.py:426-427 | a roster that does not read fails the computation as malformed |
| LegacyProration.LegacyEmptyRosterOwesNothing | sheet.py:428-429 | an empty roster owes nothing |
| LegacyProration.LegacyAmountsOwedOk | sheet.py:415-444 | with the roster read, success exactly when it is empty or every owed month reads |
| LegacyProration.LegacyAmountsOwedReads | sheet.py:415-444 | past a non-empty roster, success exactly when every owed month reads |
| LegacyProration.LegacyAmountsOwedTotals | sheet.py:415-444 | totals keyed by the roster names in order, each what the owed months charge that name |
| LegacyProration.LegacyGetAmountsOwed | sheet.py:415-444 | the loops compute exactly `LegacyAmountsOwed` |
| LegacySheet.LegacyRemoveTenantKeepsSpacers | sheet.py:284-306 | removeTenant keeps the spacers blank and the grid narrow |
| LegacySheet.LegacyMarkRentAsPaidKeepsSpacers | sheet.py:308-332 | markRentAsPaid keeps the spacers blank and the grid narrow |
| LegacySheet.LegacySetWeeksStayedKeepsSpacers | sheet.py:376-400 | setWeeksStayed keeps the spacers blank and the grid narrow |
| LegacySheet.LegacyGoogleSheet.constructor | sheet.py:63-80 | the sheet is bound to its worksheet |
| LegacySheet.LegacyGoogleSheet.ReadOrCreateMonth | sheet.py:343-347 | exactly the batches and result of `LegacyMonthOrCreate`; keeps the sheet valid |
| LegacySheet.LegacyGoogleSheet.AddTenant | sheet.py:249-282 | exactly the batches and result of `LegacyAddTenant` |
| LegacySheet.LegacyGoogleSheet.RemoveTenant | sheet.py:284-306 | exactly the batches and result of `LegacyRemoveTenant`; keeps the sheet valid |
| LegacySheet.LegacyGoogleSheet.MarkRentAsPaid | sheet.py:308-332 | exactly the batches and result of `LegacyMarkRentAsPaid`; keeps the sheet valid |
| LegacySheet.LegacyGoogleSheet.SetTotalRent | sheet.py:334-353 | exactly the batches and result of `LegacySetTotalRent`; keeps the sheet valid |
| LegacySheet.LegacyGoogleSheet.SetTotalUtility | sheet.py:355-374 | exactly the batches and result of `LegacySetTotalUtility`; keeps the sheet valid |
| LegacySheet.LegacyGoogleSheet.SetWeeksStayed | sheet.py:376-400 | exactly the batches and result of `LegacySetWeeksStayed`; keeps the sheet valid |
| LegacySheet.LegacyGoogleSheet.GetAmountsOwed | sheet.py:415-444 | reads only, and returns `LegacyAmountsOwed` of the worksheet |
| Dates.DaysInMonth | app/getRents.py:63-65 | every month has 28 to 31 days |
| Dates.NextMonth | app/getRents.py:63-65 | the next month's index is one more |
| Dates.PrevMonth | app/getRents.py:76-77 | the previous month's index is one less |
| Dates.YearLength | app/getRents.py:76-77 | a year is 365 days, 366 in a leap year |
| Dates.NextMonthStart | app/getRents.py:76-77 | the next month starts as many days later as the month is long |
| Dates.MonthStartsAfter | app/getRents.py:76-77 | a later month starts at least a whole month after an earlier one |
| Dates.MonthIndexInjective | app/getRents.py:63-65 | distinct months have distinct indices |
| Dates.FirstMonthStart | app/getRents.py:76 | 1 January of year 1 is day 1; every other month has a month before it |
| Dates.OrdinalInMonth | app/getRents.py:66-68 | a date's day number counts on from the first of its month |
| Dates.DateBefore | app/getRents.py:66-68 | a date in an earlier month comes before the first of a month |
| Dates.DateAfter | app/getRents.py:66-68 | a date in a later month comes after the month's last day |
| Dates.OrdinalOrder | app/getRents.py:66-68 | comparing day numbers is comparing year, then month, then day |
| Dates.MonthWindow | app/getRents.py:66-68 | a window from the 1st to n days later holds exactly the month's first n+1 days |
| Dates.StraddleWindow | app/getRents.py:76-80 | a window n days either side of the 1st holds the month's first n+1 days and the previous month's last n days |
| Charges.Within | app/getRents.py:66-68 | the rows kept are exactly those dated inside the bounds |
| Charges.Largest | app/getRents.py:72 | the maximum of a non-empty column is one of its values and at least every value |
| Charges.FromWindows | app/getRents.py:72-86 | fails exactly when the apartment window is empty |
| Charges.GetMonthlyCharges | app/getRents.py:57-86 | fails exactly when the week before the month is not a date or the apartment window is empty, with the matching error |
| Charges.RentIsLargestCharge | app/getRents.py:72 | the rent is the largest apartment charge of the window |
| Charges.ChargesAddUp | app/getRents.py:72-84 | rent plus utilities is every charge of both windows and every internet charge |
| Charges.RentWindowDates | app/getRents.py:63-68 | the apartment window holds exactly the charges dated the 1st to the 28th of the month |
| Charges.ElectricityWindowDates | app/getRents.py:76-80 | the electricity window holds exactly the 1st to the 8th and the last seven days of the month before |
| Charges.WithinAppend | app/getRents.py:66-68 | filtering concatenated frames filters each |
| Charges.TotalAppend | app/getRents.py:73 | the sum of concatenated frames adds the sums |
| Charges.WithinAppendNone | app/getRents.py:66-68 | rows outside the window added to a frame leave the window unchanged |
| Charges.AroundAppendNone | app/getRents.py:76-80 | the same for a week either side of a day |
| Charges.RentWindowAppend | app/getRents.py:66-68 | apartment rows outside the window leave it unchanged |
| Charges.ElectricityWindowAppend | app/getRents.py:76-80 | electricity rows outside the window leave it unchanged |
| Charges.IgnoresOtherDates | app/getRents.py:57-86 | charges dated outside both windows change nothing |
| Charges.SameWindowsSameCharges | app/getRents.py:57-86 | the result depends on the frames only through their windows |
| Charges.TotalAtLeastLargest | app/getRents.py:72-73 | with no negative charge, a column sums to at least its maximum |
| Charges.TotalNonNegative | app/getRents.py:73 | with no negative charge, a column sums to at least zero |
| Charges.UtilitiesNonNegative | app/getRents.py:73-84 | without credits the utilities are never negative |
| Cents.DollarStrToCents | app/getRents.py:138-140 | success needs exactly two pieces around the point once stripped and rid of "$" and ","; anything else is malformed |
| Cents.SignedDollarStrToCents | app/getRents.py:138-140 | the corrected reading accepts exactly the texts the original does |
| Cents.Grouped | app/getRents.py:138-140 | dollars grouped by commas: digits and commas only, a digit at each end |
| Cents.FormatDollars | app/getRents.py:138-140 | an amount as the billing sites show it starts with no whitespace and ends with a digit |
| Cents.GroupedDigits | app/getRents.py:138-140 | with its commas removed, the grouped form of n is a digit string denoting n |
| Cents.DollarStrToCentsRoundTrip | app/getRents.py:138-140 | a non-negative amount as the sites show it reads back as itself |
| Cents.DollarStrToCentsNegative | app/getRents.py:138-140 | a negative amount reads back off by twice its cents |
| Cents.ShownMinusFiveTwentyFive | app/getRents.py:138-140 | -525 cents is shown as "-$5.25" |
| Cents.DollarStrToCentsMinusFiveTwentyFive | app/getRents.py:138-140 | "-$5.25" reads as -475 cents |
| Cents.SignedNegativeRoundTrip | app/getRents.py:138-140 | the corrected reading gives back every negative amount |
| Cents.SignedNonNegativeRoundTrip | app/getRents.py:138-140 | the corrected reading gives back every non-negative amount |
| Cents.SignedDollarStrToCentsRoundTrip | app/getRents.py:138-140 | the corrected reading gives back every amount |
| Cents.SignedAgrees | app/getRents.py:138-140 | the two readings agree on every text whose dollars carry no minus sign |

## Left out

- The connection to Google Sheets is not modelled: credentials, environment variables, `open_by_url`, `initializeNewSheet` and `_isEmptySheet`. Each sheet object is handed a `Grid.Worksheet`, and the newer engine is also handed its first month, which it reads from `RENTBOT_START_TIME`.
- A1 range strings are replaced by 0-based row and column numbers in each write. The shape of the values decides the region written.
- Python floats are not modelled. Cells hold exact decimals (`Decimal(units, scale)`) and proration uses exact reals, so rounding error is not captured.
- `float()` is restricted to plain decimal notation: no exponents, `inf`, `nan` or underscores. `int()` is restricted to ASCII digits: no underscores and no other Unicode digits.
- `lower()` is restricted to ASCII letters.
- Pandas frames become lists of `Charge` rows with a date and an amount in cents. `int64` overflow is not modelled.
- The Selenium scrapers, `retry_func`, the GroupMe bot, `main.py` and the monthly reminder are not part of this model.
- `print` calls are left out.
- Python's set iteration order is not modelled. A set of months becomes a list without repeats, in order of first appearance. The model therefore claims nothing about the order of unpaid-month labels, or of the months `getAmountsOwed` visits, beyond that choice.
- Months before the first month have no block. In the source, a negative start row indexes from the end of the list. The operations require such a month to be addressable, and `getAmountsOwed` reports an error for one read from the roster.
- A row that is an empty list ends the data-row scan. In Python it would raise `IndexError`, but `get_all_values` never returns one inside the grid.
- `datetime` arguments become `YearMonth`: only the year and month matter to the ledger and to `get_monthly_charges`. Dates past year 9999 are outside `datetime` and outside the model.
- AppSheet.GoogleSheet.AddTenant: no `Valid()`-preservation ensures. A month holding 20 line items for names that are not on the roster gets a 21st, written over the block's spacer row.
- LegacySheet.LegacyGoogleSheet.AddTenant: no `Valid()`-preservation ensures, for the same reason.
- The `AttributeError` and `KeyError` that Python raises on a missing record are modelled as error results (`NoMonthBlock`, `UnknownTenant`), as is `MonthNotFoundError` (`MonthNotFound`). A cell that does not decode, which Python reports as `ValueError` or `IndexError`, is `Malformed`.
- The `markRentAsPaid` filter keeps only months whose year AND month both differ from the month paid for (`Ledger.KeepOtherMonths`), in both engines. The operations reproduce this as written; the corrected filter `Ledger.DropPaidMonth` and the entries built from it are stated beside them (see Findings) but no operation writes them.
- Grid.AllValues: every stored cell, even one holding "", counts toward the width every row is padded to, and rows of empty cells at the bottom are kept. The Sheets API leaves trailing empty cells and rows out of what `get_all_values` pads, so the model reads such a grid wider or longer than gspread does. The roster and month reads treat a blank row like a missing one; only the older engine's three-cell unpack of a line-item row (sheet.py:137) depends on the width, and `LegacyCodec.WideGridUnreadable` states its hypothesis in terms of stored cells.

## Findings

| source | as written | input that shows it | evidently intended | confidence | as-written member | corrected member |
|---|---|---|---|---|---|---|
| app/getRents.py:138-140 | the cents are added to the signed dollars, so a negative amount loses twice its cents | "-$5.25" reads as -475 cents | -525 cents: the cents take the sign of the dollars | not executed | Cents.DollarStrToCentsMinusFiveTwentyFive | Cents.SignedDollarStrToCentsRoundTrip |
| app/sheet.py:427-432 | a month stays unpaid only if its year and its month both differ from the month paid for | paying for 9/2021 with 8/2021, 9/2021, 9/2022 and 10/2022 unpaid leaves only 10/2022 | only 9/2021 is removed, as the docstring at line 420 says | not executed | Ledger.KeepOtherMonthsDropsMore | Ledger.DropPaidMonth |
| sheet.py:322-324 | the same filter in the older engine | the same tenant and months leave only 10/2022 | only 9/2021 is removed, as the docstring at line 315 says | not executed | LegacyLedger.LegacyPaidEntryDropsMore | LegacyLedger.LegacyIntendedPaidEntry |
