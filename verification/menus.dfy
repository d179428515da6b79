/** The decisions of the two console menus (Program.cs): which CSV file to
    open, and what each main-menu choice shows. Reading the console, probing
    the file system and clearing the screen are not modelled: their answers
    are the parameters. */
module Menus {
  import opened Wrappers
  import opened Strings
  import opened Orders
  import opened Records
  import opened Printer

  /** One step of choosing the data file. */
  datatype FileStep =
    | ExitWith(code: int)      // the run ends with this exit code
    | AskEmptyFolderPath       // prompt for a full path; `EmptyFolderPath` decides the answer
    | AskMenuPath              // prompt for a full path after 0; `MenuPath` decides the answer
    | ShowFileMenu             // list the files, numbered from 1, and 0 for a path
    | UseListed(path: string)  // open a listed file
    | UseManual(path: string)  // open the typed path (made absolute by the system)
    | RestartSelection         // start over with `StartSelection`: the folder is probed
                               // and the files are listed afresh

  /** What happens on start, given whether the `data` folder exists and the
      `*.csv` files found in it. */
  function StartSelection(folderExists: bool, files: seq<string>): (s: FileStep)
    ensures s == ExitWith(ExitNotFound) <==> !folderExists
    ensures s == AskEmptyFolderPath <==> folderExists && files == []
    ensures s == ShowFileMenu <==> folderExists && files != []
  {
    if !folderExists then ExitWith(ExitNotFound)
    else if files == [] then AskEmptyFolderPath
    else ShowFileMenu
  }

  /** The manual path asked for when the folder holds no CSV file: a blank
      answer or a missing file ends the run with exit code 2. */
  function EmptyFolderPath(line: Option<string>, fileExists: bool): (s: FileStep)
    ensures s == ExitWith(ExitNotFound) <==> IsNullOrWhiteSpace(line) || !fileExists
    ensures s.UseManual? <==> !IsNullOrWhiteSpace(line) && fileExists
    ensures s.UseManual? ==> line == Some(s.path)
  {
    if IsNullOrWhiteSpace(line) || !fileExists then ExitWith(ExitNotFound)
    else UseManual(line.value)
  }

  /** The answer to the file menu, already read by `int.TryParse`: `i` in
      1..|files| opens `files[i-1]`, 0 asks for a path, anything else
      restarts the selection. */
  function FileMenuChoice(files: seq<string>, parsed: Option<int>): (s: FileStep)
    ensures s.UseListed? <==> parsed.Some? && 1 <= parsed.value <= |files|
    ensures s.UseListed? ==> s.path == files[parsed.value - 1]
    ensures s == AskMenuPath <==> parsed == Some(0)
    ensures s == RestartSelection <==> parsed.None? || parsed.value < 0 || parsed.value > |files|
  {
    match parsed
    case None => RestartSelection
    case Some(index) =>
      if index == 0 then AskMenuPath
      else if 1 <= index <= |files| then UseListed(files[index - 1])
      else RestartSelection
  }

  /** Every listed file is reachable from the menu by its displayed number,
      and only listed files are. */
  lemma FileMenuOffersEveryFile(files: seq<string>, path: string)
    ensures path in files <==> exists i :: FileMenuChoice(files, Some(i)) == UseListed(path)
  {
    if path in files {
      var k :| 0 <= k < |files| && files[k] == path;
      assert FileMenuChoice(files, Some(k + 1)) == UseListed(path);
    }
  }

  /** The path asked for after choosing 0: a blank answer or a missing file
      restarts the selection instead of ending the run. */
  function MenuPath(line: Option<string>, fileExists: bool): (s: FileStep)
    ensures s == RestartSelection <==> IsNullOrWhiteSpace(line) || !fileExists
    ensures s.UseManual? <==> !IsNullOrWhiteSpace(line) && fileExists
    ensures s.UseManual? ==> line == Some(s.path)
  {
    if IsNullOrWhiteSpace(line) || !fileExists then RestartSelection
    else UseManual(line.value)
  }

  /** The main-menu choices. */
  datatype Action = ShowTable | ShowMaxTotal | ShowMaxQuantity | ShowMaxDiscount | Quit | InvalidOption

  /** The `switch` on the trimmed choice: "1" to "5", anything else invalid. */
  function ChoiceAction(choice: string): Action {
    if choice == "1" then ShowTable
    else if choice == "2" then ShowMaxTotal
    else if choice == "3" then ShowMaxQuantity
    else if choice == "4" then ShowMaxDiscount
    else if choice == "5" then Quit
    else InvalidOption
  }

  /** `Console.ReadLine()?.Trim()` matched against "1" to "5"; no line at all,
      or any other text, is an invalid option. */
  function MenuAction(line: Option<string>): (a: Action)
    ensures a == ShowTable <==> line.Some? && Trim(line.value) == "1"
    ensures a == ShowMaxTotal <==> line.Some? && Trim(line.value) == "2"
    ensures a == ShowMaxQuantity <==> line.Some? && Trim(line.value) == "3"
    ensures a == ShowMaxDiscount <==> line.Some? && Trim(line.value) == "4"
    ensures a == Quit <==> line.Some? && Trim(line.value) == "5"
    ensures a == InvalidOption <==> line.None? || Trim(line.value) !in {"1", "2", "3", "4", "5"}
  {
    match line
    case None => InvalidOption
    case Some(s) => ChoiceAction(Trim(s))
  }

  /** A choice typed with white space around it counts as the bare digit. */
  lemma MenuActionIgnoresPadding(lead: string, digit: char, trail: string)
    requires AllWhiteSpace(lead) && AllWhiteSpace(trail)
    requires '1' <= digit <= '5'
    ensures MenuAction(Some(lead + [digit] + trail)) == MenuAction(Some([digit]))
  {
    TrimOfPadded(lead, [digit], trail);
    TrimOfPadded([], [digit], []);
    assert [] + [digit] + [] == [digit];
    assert Trim(lead + [digit] + trail) == Trim([digit]);
  }

  /** The four screen titles; `PrintHeader` frames each between rules. */
  datatype Title = TableTitle | MaxTotalTitle | MaxQuantityTitle | MaxDiscountTitle

  function TitleText(t: Title): string {
    match t
    case TableTitle => "===  Contenuto del file CSV  ==  CSV file content  ==="
    case MaxTotalTitle =>
      "===  Record con importo totale (scontato) più alto  ==  Record with the highest (discounted) total  ==="
    case MaxQuantityTitle =>
      "===  Record con quantità più alta  ==  Record with the highest quantity  ==="
    case MaxDiscountTitle =>
      "===  Record con maggior differenza tra totale senza sconto e con sconto  ==  " +
      "Record with the greatest difference between total without discount and with discount  ==="
  }

  /** What one non-exit choice puts on the screen: a header and its body. */
  datatype Screen =
    | TableScreen(title: Title, rows: seq<TableRow>)
    | RecordScreen(title: Title, record: OrderRecord)
    | InvalidOptionScreen
  {
    /** The header lines above the body; the invalid-option message has none. */
    function Header(): seq<string> {
      if InvalidOptionScreen? then [] else HeaderLines(TitleText(title))
    }
  }

  /** The screen for a choice: the table of all records, one of the three
      selections computed at load time (each the first maximum of its key,
      by `Selected`), or the invalid-option message. */
  function ScreenFor(l: Loaded, a: Action): (s: Screen)
    requires Selected(l) && a != Quit
    ensures a == ShowTable ==> s == TableScreen(TableTitle, TableRows(l.records))
    ensures a == ShowMaxTotal ==> s == RecordScreen(MaxTotalTitle, l.records[l.maxTotal])
    ensures a == ShowMaxQuantity ==> s == RecordScreen(MaxQuantityTitle, l.records[l.maxQuantity])
    ensures a == ShowMaxDiscount ==> s == RecordScreen(MaxDiscountTitle, l.records[l.maxDiscount])
    ensures a == InvalidOption <==> s == InvalidOptionScreen
  {
    match a
    case ShowTable => TableScreen(TableTitle, TableRows(l.records))
    case ShowMaxTotal => RecordScreen(MaxTotalTitle, l.records[l.maxTotal])
    case ShowMaxQuantity => RecordScreen(MaxQuantityTitle, l.records[l.maxQuantity])
    case ShowMaxDiscount => RecordScreen(MaxDiscountTitle, l.records[l.maxDiscount])
    case InvalidOption => InvalidOptionScreen
  }

  /** The main loop run over the lines the operator types: each choice other
      than "5" shows its screen and loops; "5" ends the run with exit code 0.
      `exitCode` is None when the lines run out first. */
  method RunMenu(l: Loaded, lines: seq<Option<string>>) returns (screens: seq<Screen>, exitCode: Option<int>)
    requires Selected(l)
    ensures |screens| <= |lines|
    ensures forall i :: 0 <= i < |screens| ==>
      MenuAction(lines[i]) != Quit && screens[i] == ScreenFor(l, MenuAction(lines[i]))
    ensures exitCode.None? ==> |screens| == |lines|
    ensures exitCode.Some? ==>
      exitCode.value == ExitOk && |screens| < |lines| && MenuAction(lines[|screens|]) == Quit
  {
    screens := [];
    exitCode := None;
    var n := 0;
    while n < |lines|
      invariant n <= |lines| && |screens| == n
      invariant forall i :: 0 <= i < n ==>
        MenuAction(lines[i]) != Quit && screens[i] == ScreenFor(l, MenuAction(lines[i]))
    {
      var action := MenuAction(lines[n]);
      if action == Quit {
        exitCode := Some(ExitOk);
        return;
      }
      var screen := ScreenFor(l, action);
      ghost var before := screens;
      screens := screens + [screen];
      forall i | 0 <= i < n + 1
        ensures MenuAction(lines[i]) != Quit && screens[i] == ScreenFor(l, MenuAction(lines[i]))
      {
        if i < n {
          assert screens[i] == before[i];
        }
      }
      n := n + 1;
    }
  }
}
