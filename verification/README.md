# OrderAnalyzer in Dafny

A model of the core of OrderAnalyzer, a console tool. It reads a CSV file of
purchase orders and computes four derived values for each order line:

- the total before discount;
- the discount factor;
- the total after discount, rounded to cents;
- the discount amount.

An operator then asks for the whole table or for one of three records: the one
with the highest discounted total, the highest quantity, or the largest
discount value.

The model has six modules:

- `Orders` (`orders.dfy`): the order record and its derived values. C# `decimal`
  becomes exact `real`. `Math.Round(x, 2, MidpointRounding.AwayFromZero)`
  becomes `RoundCentsAwayFromZero`, which is sign(x)·⌊|x|·100 + ½⌋/100.
- `Records` (`records.dfy`): the validity filter, the `MaxBy` selections
  (a strictly greater key replaces the best so far, so the first maximum wins),
  and the load outcome with exit code 4 when no valid record is left.
- `Menus` (`menus.dfy`): the decisions of the file-selection menu and of the
  main menu. The main loop is a method over the lines the operator types.
- `Printer` (`printer.dfy`): the header rules, `Trunc`, and the text columns
  of the table.
- `Strings` (`strings.dfy`): .NET's `char.IsWhiteSpace`, `string.Trim` and
  `string.IsNullOrWhiteSpace`, as the menus apply them to console lines.
- `Wrappers` (`wrappers.dfy`): an `Option` type.

The doc comment of `DiscountValue` (OrderAnalyzer/OrderAnalyzer/OrderRecord.cs:67-70)
calls it the "absolute discount value", but the code does not keep it
non-negative. When the undiscounted total has more than two decimals,
rounding can push the discounted total above it. Three units at 10.005 give
30.015, which rounds to 30.02, so the discount value is −0.005
(`HalfCentPriceGivesNegativeDiscountValue`). What does hold is proved instead.
The discount value is at least −0.005 for any record with non-negative
quantity and price. It is non-negative when the undiscounted total is a whole
number of cents (both in the contract of `OrderRecord.DiscountValue`).

## Model

| member | source | states |
|---|---|---|
| `Orders.RoundCentsAwayFromZero` | OrderAnalyzer/OrderAnalyzer/OrderRecord.cs:62-65 | the result is a whole number of cents, within half a cent of the input, and has the sign of the input |
| `Orders.RoundIsOdd` | OrderAnalyzer/OrderAnalyzer/OrderRecord.cs:62-65 | a negative value rounds to the negation of rounding its absolute value |
| `Orders.RoundMidpointAwayFromZero` | OrderAnalyzer/OrderAnalyzer/OrderRecord.cs:62-65 | a value exactly half a cent between two cents rounds away from zero |
| `Orders.RoundIsMonotone` | OrderAnalyzer/OrderAnalyzer/OrderRecord.cs:62-65 | rounding preserves the order of values |
| `Orders.RoundKeepsCents` | OrderAnalyzer/OrderAnalyzer/OrderRecord.cs:62-65 | a whole number of cents is unchanged by rounding |
| `Orders.RoundIsNearestCent` | OrderAnalyzer/OrderAnalyzer/OrderRecord.cs:62-65 | no whole number of cents is closer to the input than its rounding |
| `Orders.OrderRecord.TotalWithoutDiscount` | OrderAnalyzer/OrderAnalyzer/OrderRecord.cs:39 | the exact product is non-negative for non-negative quantity and price, and zero when either is zero |
| `Orders.OrderRecord.DiscountFactor` | OrderAnalyzer/OrderAnalyzer/OrderRecord.cs:47-55 | the factor lies in [0,1] for every discount; it is 1 − p/100 for 0 ≤ p ≤ 100, 0 for p ≥ 100 and 1 for p ≤ 0 |
| `Orders.OrderRecord.TotalWithDiscount` | OrderAnalyzer/OrderAnalyzer/OrderRecord.cs:62-65 | whole cents within 0.005 of total × factor; for non-negative quantity and price, between 0 and the undiscounted total plus 0.005, and at most the undiscounted total when that is whole cents; zero for a discount of 100 or more |
| `Orders.OrderRecord.DiscountValue` | OrderAnalyzer/OrderAnalyzer/OrderRecord.cs:71 | discount value plus discounted total is the undiscounted total; for non-negative quantity and price it lies between −0.005 and the undiscounted total, and is ≥ 0 when the undiscounted total is whole cents; the whole total at 100% or more |
| `Orders.DiscountedFacts` | OrderAnalyzer/OrderAnalyzer/OrderRecord.cs:62-65 | rounding a non-negative amount scaled by a factor in [0,1] gives between 0 and the amount plus half a cent, at most the amount when it is whole cents, and 0 for factor 0 |
| `Orders.RoundBelow` | OrderAnalyzer/OrderAnalyzer/OrderRecord.cs:62-65 | rounding a value between 0 and an amount stays within [0, amount + 0.005], and within [0, amount] when the amount is whole cents |
| `Orders.HalfCentPriceGivesNegativeDiscountValue` | OrderAnalyzer/OrderAnalyzer/OrderRecord.cs:62-71 | 3 × 10.005 with no discount gives 30.015, rounded to 30.02, and a discount value of −0.005 |
| `Strings.Trim` | OrderAnalyzer/Program.cs:161 | the trimmed line is no longer than the line and neither starts nor ends with white space |
| `Strings.TrimOfPadded` | OrderAnalyzer/Program.cs:161 | trimming text padded with white space on both sides gives back exactly that text |
| `Strings.BlankIffTrimsToEmpty` | OrderAnalyzer/Program.cs:65 | a line counts as blank exactly when trimming it leaves nothing |
| `Printer.Repeat` | OrderAnalyzer/Printer.cs:23 | `new string(c, n)` has length n and holds only c |
| `Printer.HeaderLines` | OrderAnalyzer/Printer.cs:20-26 | a blank line, then the title between two equal rules made only of `=`, each as long as the title |
| `Printer.Trunc` | OrderAnalyzer/Printer.cs:93 | the result is the prefix of s of length min(\|s\|, max), and s itself when it fits |
| `Printer.TruncIdempotent` | OrderAnalyzer/Printer.cs:93 | cutting twice at one width is cutting once |
| `Printer.PadRight` | OrderAnalyzer/Printer.cs:85 | left alignment keeps the text and fills with spaces up to the width, never cutting |
| `Printer.RowOf` | OrderAnalyzer/Printer.cs:85 | the article cell is exactly 16 wide and shows at most 16 characters of the name, then spaces; the buyer cell shows at most 15 characters of the buyer; the other cells carry the record's values |
| `Printer.TableRows` | OrderAnalyzer/Printer.cs:82-86 | one row per record, in list order |
| `Records.FilterValid` | OrderAnalyzer/Program.cs:137-139 | the result is no longer than the input and holds exactly the records with quantity, price and discount all ≥ 0 |
| `Records.Rejected` | OrderAnalyzer/Program.cs:138 | the dropped records are exactly those with a negative field |
| `Records.FilterAppend` | OrderAnalyzer/Program.cs:138 | filtering a concatenation is concatenating the filtered parts, so relative order is kept |
| `Records.FilterKeepsValid` | OrderAnalyzer/Program.cs:138 | a list of valid records passes unchanged |
| `Records.FilterIdempotent` | OrderAnalyzer/Program.cs:138 | filtering twice is filtering once |
| `Records.FilterPartition` | OrderAnalyzer/Program.cs:137-139 | kept plus dropped records are the input as a multiset, so the count kept is rows minus invalid rows |
| `Records.FilterIsSubsequence` | OrderAnalyzer/Program.cs:137-139 | the kept records are a subsequence of the input |
| `Records.MaxByScan` | OrderAnalyzer/Program.cs:152-154 | the scan that replaces the best only on a strictly greater key ends at the first maximum |
| `Records.MaxByIndex` | OrderAnalyzer/Program.cs:152-154 | the selected record's key is ≥ every key, and every earlier record's key is strictly smaller |
| `Records.FirstMaxIsUnique` | OrderAnalyzer/Program.cs:152-154 | only one index is the first maximum, so the tie-break is determined |
| `Records.Load` | OrderAnalyzer/Program.cs:137-154 | no valid data exactly when every row is invalid; otherwise the records are the filtered rows and the three selections are first maxima by discounted total, quantity and discount value |
| `Records.LoadExitCode` | OrderAnalyzer/Program.cs:144-148 | the run ends with exit code 4 exactly when no valid record is left; a ready load ends nothing and goes on to the menu |
| `Records.LoadExitsIffNothingValid` | OrderAnalyzer/Program.cs:137-148 | loading ends the run with exit code 4 exactly when the filter keeps no row |
| `Records.TwoOrderExample` | OrderAnalyzer/Program.cs:152-153 | 2 × 10.00 and 1 × 50.00 at 50% give totals 20.00 and 25.00; the highest total is the second record, the highest quantity the first |
| `Records.TieGoesToFirst` | OrderAnalyzer/Program.cs:152 | of two valid records with equal discounted totals, the first is selected |
| `Menus.StartSelection` | OrderAnalyzer/Program.cs:16-30 | a missing data folder exits with code 2; an empty one asks for a path, answered by `EmptyFolderPath`; otherwise the file menu is shown |
| `Menus.EmptyFolderPath` | OrderAnalyzer/Program.cs:30-43 | with no CSV in the folder, a blank or missing path exits with code 2, any other path is used |
| `Menus.FileMenuChoice` | OrderAnalyzer/Program.cs:59-90 | i in 1..Count opens files[i−1]; 0 asks for a path, answered by `MenuPath`; any other integer, or no integer, restarts the selection from the folder probe |
| `Menus.FileMenuOffersEveryFile` | OrderAnalyzer/Program.cs:50-79 | a path can be chosen by number exactly when it is listed |
| `Menus.MenuPath` | OrderAnalyzer/Program.cs:61-75 | after choosing 0, a blank or missing path restarts the selection from the folder probe, any other path is used |
| `Menus.MenuAction` | OrderAnalyzer/Program.cs:161-194 | the trimmed lines "1" to "4" pick the table and the three selections, "5" exits; no line, or a trimmed line other than "1" to "5", is an invalid option |
| `Menus.MenuActionIgnoresPadding` | OrderAnalyzer/Program.cs:161 | a digit choice with white space around it acts as the bare digit |
| `Menus.ScreenFor` | OrderAnalyzer/Program.cs:163-194 | choice 1 shows the table rows of all records under the table title; choices 2 to 4 show, under their titles, the record selected at load time (the first maximum of its key); anything else shows only the error message |
| `Menus.RunMenu` | OrderAnalyzer/Program.cs:158-203 | each line before the first "5" shows its screen and the loop goes on; at "5" the run ends with exit code 0; if no "5" comes, every line shows a screen and the run has not ended |

## Left out

- Console I/O is not modelled: prompts, menu banners (`PrintMenu`, `PrintUsage`), the "press ENTER" pause line and `Console.Clear`. `RunMenu` takes only the choice lines.
- The text of `PrintRecord` is not modelled. It formats numbers with the `it-IT` culture (`0.00`, `0.##`), which is .NET library behaviour.
- The number cells of the table are not modelled. They are formatted with the current culture of the process, which the program does not fix.
- File-system probing is not modelled: `Directory.Exists`, `GetFiles`, `File.Exists` and `Path.GetFullPath`. Their answers are parameters, and a manual path is carried as typed.
- The ordering of listed files by name is not modelled. `OrderBy(Path.GetFileName)` uses the culture-sensitive default string comparer, so the model takes the listing in the order given.
- `int.TryParse` is not modelled, because it is .NET library behaviour. The file menu takes its result as an `Option<int>`.
- The recursion of `SelectCsvFromData` is modelled one step at a time: `FileStep.RestartSelection` means the next step is `StartSelection` with fresh answers from the file system. The sequence of steps over console input is not modelled.
- CSV parsing is not modelled. It is done by the CsvHelper library: header lookup, trimming, the bad-row warning and decimal conversion. `OrderRecordMap.cs` only maps column names for that library. The model starts from the parsed rows.
- The mapping of exceptions to exit code 3 and `Environment.Exit` are process control. Only the exit-code constants and the codes 0, 2 and 4 chosen by the modelled decisions are stated.
- The 28-digit precision and overflow of `decimal`, and the 32-bit range of `int` quantities, are not modelled. Arithmetic is exact.
- `Strings.IsWhiteSpace` lists the characters .NET documents for `char.IsWhiteSpace`. It covers the Unicode space, line and paragraph separators, U+0009 to U+000D and U+0085.
- `Printer.Trunc`, `Printer.PadRight` and `Printer.RowOf` count widths in Unicode code points, while .NET's `Length`, `Substring` and composite alignment count UTF-16 code units. Text outside the Basic Multilingual Plane is therefore cut and padded differently: the source may keep fewer characters, or split a surrogate pair.
