/** The JUnit uploader page: the results table (filter, sort, paginate), its
    sort and page controls, and the upload form with its progress ticker. */
module JUnit {
  import opened Js
  import opened Seqs
  import opened Sorting
  import opened Text

  datatype Status = Passed | Failed | Skipped | Error

  /** The status as the API spells it. */
  function StatusName(s: Status): string {
    match s
    case Passed => "passed"
    case Failed => "failed"
    case Skipped => "skipped"
    case Error => "error"
  }

  /** One row of the results table. */
  datatype TestResult = TestResult(
    id: int,
    testRunId: int,
    testCaseId: int,
    className: string,
    name: string,
    status: Status,
    duration: int,
    errorMessage: Option<string>,
    stackTrace: Option<string>,
    executedById: Option<string>,
    createdAt: string)

  // ---------------------------------------------------------------------------
  // Filtering

  /** The search box matches the name, the class name or a non-empty error
      message, ignoring case; an empty query matches everything. */
  predicate MatchesSearch(r: TestResult, query: string) {
    var q := Lower(query);
    || query == ""
    || Contains(Lower(r.name), q)
    || Contains(Lower(r.className), q)
    || (r.errorMessage.Some? && r.errorMessage.value != "" && Contains(Lower(r.errorMessage.value), q))
  }

  /** The status drop-down matches its own status; an empty choice matches everything. */
  predicate MatchesStatus(r: TestResult, statusFilter: string) {
    statusFilter == "" || StatusName(r.status) == statusFilter
  }

  function Matcher(query: string, statusFilter: string): TestResult -> bool {
    r => MatchesSearch(r, query) && MatchesStatus(r, statusFilter)
  }

  /** `filteredResults`: no results loaded gives the empty list. */
  function FilteredResults(testResults: Option<seq<TestResult>>, query: string, statusFilter: string): (r: seq<TestResult>)
    ensures testResults.None? ==> r == []
    ensures testResults.Some? ==> |r| <= |testResults.value|
    ensures forall i :: 0 <= i < |r| ==> MatchesSearch(r[i], query) && MatchesStatus(r[i], statusFilter)
  {
    match testResults
    case None => []
    case Some(rs) => Filter(rs, Matcher(query, statusFilter))
  }

  /** The filtered list keeps the order of the loaded results and holds exactly
      the results that match both the search and the status filter. */
  lemma FilteredResultsExact(rs: seq<TestResult>, query: string, statusFilter: string)
    ensures Subsequence(FilteredResults(Some(rs), query, statusFilter), rs)
    ensures forall x :: x in FilteredResults(Some(rs), query, statusFilter) <==>
      (x in rs && MatchesSearch(x, query) && MatchesStatus(x, statusFilter))
  {
    FilterSubsequence(rs, Matcher(query, statusFilter));
    FilterMembers(rs, Matcher(query, statusFilter));
  }

  /** An empty query and an empty status filter keep every loaded result. */
  lemma NoFilterKeepsAll(rs: seq<TestResult>)
    ensures FilteredResults(Some(rs), "", "") == rs
  {
    FilterShrinks(rs, Matcher("", ""));
  }

  // ---------------------------------------------------------------------------
  // Sorting

  datatype Direction = Asc | Desc

  /** The comparison of the chosen column; an unknown column compares every pair as 0. */
  function FieldComparator(field: string): (TestResult, TestResult) -> int {
    if field == "name" then OnKey(LexCompare, (r: TestResult) => r.name)
    else if field == "className" then OnKey(LexCompare, (r: TestResult) => r.className)
    else if field == "status" then OnKey(LexCompare, (r: TestResult) => StatusName(r.status))
    else if field == "duration" then ByKey((r: TestResult) => r.duration)
    else Indifferent()
  }

  predicate KnownField(field: string) {
    field == "name" || field == "className" || field == "status" || field == "duration"
  }

  /** `asc` uses the column's comparison, `desc` its negation. */
  function Comparator(field: string, direction: Direction): (TestResult, TestResult) -> int {
    if direction == Asc then FieldComparator(field) else Reversed(FieldComparator(field))
  }

  lemma ComparatorIsComparator(field: string, direction: Direction)
    ensures IsComparator(Comparator(field, direction))
  {
    LexCompareIsComparator();
    if field == "name" {
      OnKeyIsComparator(LexCompare, (r: TestResult) => r.name);
    } else if field == "className" {
      OnKeyIsComparator(LexCompare, (r: TestResult) => r.className);
    } else if field == "status" {
      OnKeyIsComparator(LexCompare, (r: TestResult) => StatusName(r.status));
    } else if field == "duration" {
      ByKeyIsComparator((r: TestResult) => r.duration);
    } else {
      IndifferentKeepsOrder<TestResult>([]);
    }
    if direction == Desc {
      ReversedIsComparator(FieldComparator(field));
    }
  }

  /** `sortedResults`: a permutation of the filtered list in the chosen order;
      an unknown column keeps the filtered order. */
  function SortedResults(filtered: seq<TestResult>, field: string, direction: Direction): (r: seq<TestResult>)
    ensures multiset(r) == multiset(filtered)
    ensures Sorted(r, Comparator(field, direction))
    ensures !KnownField(field) ==> r == filtered
  {
    ComparatorIsComparator(field, direction);
    SortSorted(filtered, Comparator(field, direction));
    if KnownField(field) then Sort(filtered, Comparator(field, direction))
    else
      assert forall a, b :: Comparator(field, direction)(a, b) == 0;
      SortOfSorted(filtered, Comparator(field, direction));
      Sort(filtered, Comparator(field, direction))
  }

  /** Sorted ascending by duration means the durations do not decrease; sorted
      descending, they do not increase. */
  lemma SortedByDuration(filtered: seq<TestResult>)
    ensures var r := SortedResults(filtered, "duration", Asc);
      forall i, j :: 0 <= i < j < |r| ==> r[i].duration <= r[j].duration
    ensures var r := SortedResults(filtered, "duration", Desc);
      forall i, j :: 0 <= i < j < |r| ==> r[i].duration >= r[j].duration
  {
    var up := SortedResults(filtered, "duration", Asc);
    var down := SortedResults(filtered, "duration", Desc);
    forall i, j | 0 <= i < j < |up| ensures up[i].duration <= up[j].duration {
      assert Comparator("duration", Asc)(up[i], up[j]) <= 0;
    }
    forall i, j | 0 <= i < j < |down| ensures down[i].duration >= down[j].duration {
      assert Comparator("duration", Desc)(down[i], down[j]) <= 0;
    }
  }

  /** Sorted ascending by name means no name is after a later one in the string order. */
  lemma SortedByName(filtered: seq<TestResult>)
    ensures var r := SortedResults(filtered, "name", Asc);
      forall i, j :: 0 <= i < j < |r| ==> LexCompare(r[i].name, r[j].name) <= 0
  {
    var r := SortedResults(filtered, "name", Asc);
    forall i, j | 0 <= i < j < |r| ensures LexCompare(r[i].name, r[j].name) <= 0 {
      assert Comparator("name", Asc)(r[i], r[j]) <= 0;
    }
  }

  // ---------------------------------------------------------------------------
  // Pagination

  function Min(a: int, b: int): int {
    if a <= b then a else b
  }

  /** `sortedResults.slice((page - 1) * size, page * size)`. */
  function Paginated(sorted: seq<TestResult>, page: int, size: int): (r: seq<TestResult>)
    ensures 1 <= page && 0 <= size ==> |r| <= size
    ensures 1 <= page && 0 <= size && (page - 1) * size <= |sorted| ==>
      r == sorted[(page - 1) * size .. Min(page * size, |sorted|)]
    ensures 1 <= page && 0 <= size && (page - 1) * size >= |sorted| ==> r == []
  {
    PageBounds(page, size);
    Slice(sorted, (page - 1) * size, page * size)
  }

  lemma PageBounds(page: int, size: int)
    ensures page * size == (page - 1) * size + size
    ensures 1 <= page && 0 <= size ==> 0 <= (page - 1) * size
  {
    if 1 <= page && 0 <= size {
      MulMonotone(0, page - 1, size);
    }
  }

  /** `Math.ceil(n / size)`: the fewest pages of `size` rows that hold `n` rows. */
  function TotalPages(n: nat, size: int): (t: nat)
    requires size >= 1
    ensures t * size >= n
    ensures t > 0 ==> (t - 1) * size < n
  {
    if n == 0 then 0
    else
      var q := (n - 1) / size;
      assert n - 1 == q * size + (n - 1) % size;
      assert (q + 1) * size == q * size + size;
      q + 1
  }

  /** Pages 1 to `k`, one after the other. */
  function Pages(sorted: seq<TestResult>, size: int, k: nat): seq<TestResult> {
    if k == 0 then [] else Pages(sorted, size, k - 1) + Paginated(sorted, k, size)
  }

  lemma {:induction false} PagesPrefix(sorted: seq<TestResult>, size: int, k: nat)
    requires size >= 1
    ensures Pages(sorted, size, k) == sorted[..Min(k * size, |sorted|)]
  {
    if k > 0 {
      PagesPrefix(sorted, size, k - 1);
      PageBounds(k, size);
      var lo := (k - 1) * size;
      var a := Min(lo, |sorted|);
      var b := Min(k * size, |sorted|);
      if lo <= |sorted| {
        assert Paginated(sorted, k, size) == sorted[a..b];
      } else {
        assert Paginated(sorted, k, size) == [];
        assert a == b;
      }
      assert sorted[..a] + sorted[a..b] == sorted[..b];
    }
  }

  /** Concatenating pages 1 to `TotalPages` gives back the whole sorted list. */
  lemma PagesCoverAll(sorted: seq<TestResult>, size: int)
    requires size >= 1
    ensures Pages(sorted, size, TotalPages(|sorted|, size)) == sorted
  {
    PagesPrefix(sorted, size, TotalPages(|sorted|, size));
  }

  lemma {:induction false} MulMonotone(a: nat, b: nat, c: nat)
    requires a <= b
    ensures a * c <= b * c
    decreases b - a
  {
    if a < b {
      MulMonotone(a, b - 1, c);
      assert b * c == (b - 1) * c + c;
    }
  }

  /** A page is non-empty exactly when its number lies in 1 .. `TotalPages`. */
  lemma PageNonEmpty(sorted: seq<TestResult>, page: int, size: int)
    requires page >= 1 && size >= 1
    ensures |Paginated(sorted, page, size)| > 0 <==> page <= TotalPages(|sorted|, size)
  {
    var n := |sorted|;
    var t := TotalPages(n, size);
    var start := (page - 1) * size;
    assert page * size == start + size;
    if page <= t {
      MulMonotone(page - 1, t - 1, size);
      assert start < n;
      assert Paginated(sorted, page, size) == sorted[start..Min(page * size, n)];
    } else {
      MulMonotone(t, page - 1, size);
      assert start >= n;
      assert SliceIndex(start, n) == n;
    }
  }

  // ---------------------------------------------------------------------------
  // The table's state

  /** Clicking a column header: the same column flips the direction, another
      column becomes the sort column in ascending order. */
  function NextSort(field: string, currentField: string, currentDirection: Direction): (string, Direction) {
    if currentField == field then (field, if currentDirection == Asc then Desc else Asc)
    else (field, Asc)
  }

  /** Clicking the sort column twice restores the original order. */
  lemma SortToggleTwice(field: string, direction: Direction)
    ensures var (f, d) := NextSort(field, field, direction);
      NextSort(field, f, d) == (field, direction)
    ensures NextSort(field, field, direction).1 != direction
  {
  }

  /** Clicking a new column always sorts it ascending, whatever the old direction. */
  lemma SortNewColumnAscending(field: string, currentField: string, currentDirection: Direction)
    requires field != currentField
    ensures NextSort(field, currentField, currentDirection) == (field, Asc)
  {
  }

  class ResultsTable {
    var testResults: Option<seq<TestResult>>
    var searchQuery: string
    var statusFilter: string
    var sortField: string
    var sortDirection: Direction
    var currentPage: int
    var pageSize: int

    ghost predicate Valid()
      reads this
    {
      currentPage >= 1 && pageSize == 25
    }

    constructor(testResults: Option<seq<TestResult>>)
      ensures Valid()
      ensures this.testResults == testResults
      ensures searchQuery == "" && statusFilter == ""
      ensures sortField == "name" && sortDirection == Asc
      ensures currentPage == 1 && pageSize == 25
    {
      this.testResults := testResults;
      searchQuery := "";
      statusFilter := "";
      sortField := "name";
      sortDirection := Asc;
      currentPage := 1;
      pageSize := 25;
    }

    function Filtered(): seq<TestResult>
      reads this
    {
      FilteredResults(testResults, searchQuery, statusFilter)
    }

    function SortedRows(): seq<TestResult>
      reads this
    {
      SortedResults(Filtered(), sortField, sortDirection)
    }

    /** The rows the table shows. */
    function Page(): seq<TestResult>
      reads this
    {
      Paginated(SortedRows(), currentPage, pageSize)
    }

    method HandleSort(field: string)
      modifies this
      ensures (sortField, sortDirection) == NextSort(field, old(sortField), old(sortDirection))
      ensures testResults == old(testResults) && searchQuery == old(searchQuery)
      ensures statusFilter == old(statusFilter) && currentPage == old(currentPage) && pageSize == old(pageSize)
    {
      if sortField == field {
        sortDirection := if sortDirection == Asc then Desc else Asc;
      } else {
        sortField := field;
        sortDirection := Asc;
      }
    }

    /** Moves to `newPage` only when it is one of the pages the filtered list fills,
        so the page shown after a change is never empty. */
    method HandlePageChange(newPage: int)
      requires Valid()
      modifies this
      ensures Valid()
      ensures 1 <= newPage <= TotalPages(|Filtered()|, pageSize) ==> currentPage == newPage
      ensures !(1 <= newPage <= TotalPages(|Filtered()|, pageSize)) ==> currentPage == old(currentPage)
      ensures currentPage != old(currentPage) ==> |Page()| > 0
      ensures testResults == old(testResults) && searchQuery == old(searchQuery) && statusFilter == old(statusFilter)
      ensures sortField == old(sortField) && sortDirection == old(sortDirection) && pageSize == old(pageSize)
    {
      var totalPages := TotalPages(|Filtered()|, pageSize);
      if newPage >= 1 && newPage <= totalPages {
        currentPage := newPage;
        assert |multiset(SortedRows())| == |multiset(Filtered())|;
        PageNonEmpty(SortedRows(), newPage, pageSize);
      }
    }
  }

  // ---------------------------------------------------------------------------
  // Declaration order of the derived lists (see Findings in README)

  /** The constants of the component body that follow the state hooks, in the
      order the body declares them. */
  const DeclarationOrder: seq<string> := ["totalPages", "filteredResults", "sortedResults", "paginatedResults"]

  /** The constants already initialised when the declaration of `name` runs. */
  function InitialisedBefore(order: seq<string>, name: string): (r: set<string>)
    ensures forall x :: x in r ==> x in order && x != name
  {
    if order == [] || order[0] == name then {} else {order[0]} + InitialisedBefore(order[1..], name)
  }

  datatype Outcome<T> = Done(value: T) | ReferenceError

  /** Evaluating `totalPages` when `initialised` are the constants already set:
      reading `filteredResults` before its `const` declaration has run throws. */
  function TotalPagesAt(initialised: set<string>, filtered: seq<TestResult>, size: int): (r: Outcome<nat>)
    requires size >= 1
    ensures r.ReferenceError? <==> "filteredResults" !in initialised
    ensures r.Done? ==> r.value * size >= |filtered|
  {
    if "filteredResults" in initialised then Done(TotalPages(|filtered|, size)) else ReferenceError
  }

  /** As written, `totalPages` is declared before `filteredResults`, so computing
      it throws whatever the results are. */
  lemma TotalPagesAsWrittenThrows(filtered: seq<TestResult>, size: int)
    requires size >= 1
    ensures TotalPagesAt(InitialisedBefore(DeclarationOrder, "totalPages"), filtered, size) == ReferenceError
  {
  }

  /** Declared after the derived lists, as `ResultsTable` computes it, the value exists. */
  lemma TotalPagesAfterFilteringDefined(filtered: seq<TestResult>, size: int)
    requires size >= 1
    ensures TotalPagesAt(InitialisedBefore(DeclarationOrder + ["totalPagesAfter"], "totalPagesAfter"), filtered, size).Done?
  {
    assert "filteredResults" in InitialisedBefore(DeclarationOrder + ["totalPagesAfter"], "totalPagesAfter");
  }

  // ---------------------------------------------------------------------------
  // Upload progress

  /** One tick of the fake progress interval: add 5, cap at 90. */
  function Tick(p: int): (r: int)
    ensures r <= 90
    ensures p <= 85 ==> r == p + 5
    ensures p > 85 ==> r == 90
  {
    var newProgress := p + 5;
    if newProgress >= 90 then 90 else newProgress
  }

  /** `n` ticks from `p`. */
  function Ticks(p: int, n: nat): int {
    if n == 0 then p else Tick(Ticks(p, n - 1))
  }

  /** From any progress up to 90, `n` ticks give `min(90, p + 5n)`: ticks alone
      never pass 90. */
  lemma {:induction false} TicksClosedForm(p: int, n: nat)
    requires p <= 90
    ensures Ticks(p, n) == Min(90, p + 5 * n)
  {
    if n > 0 {
      TicksClosedForm(p, n - 1);
    }
  }

  /** Eighteen ticks bring an upload that started at 0 to 90, and no tick goes beyond. */
  lemma TicksReachCap(n: nat)
    requires n >= 18
    ensures Ticks(0, n) == 90
  {
    TicksClosedForm(0, n);
  }

  // ---------------------------------------------------------------------------
  // The upload form

  datatype File = File(name: string)

  /** The multipart body: the XML file, the run name as typed, and the
      environment only when it is non-empty. */
  datatype UploadRequest = UploadRequest(xmlFile: File, name: string, environment: Option<string>)

  /** `name` has an extension starting at index `i`: a dot followed by at least
      one character, none of them a dot or a slash, up to the end. */
  ghost predicate ExtensionAt(name: string, i: int) {
    0 <= i < |name| - 1 && name[i] == '.' && forall j :: i < j < |name| ==> name[j] != '.' && name[j] != '/'
  }

  /** The index of the last character that satisfies `p`, or -1. */
  function LastIndexWhere(s: string, p: char -> bool): (k: int)
    ensures -1 <= k < |s|
    ensures k >= 0 ==> p(s[k])
    ensures forall j :: k < j < |s| ==> !p(s[j])
  {
    if s == [] then -1
    else if p(s[|s| - 1]) then |s| - 1
    else LastIndexWhere(s[..|s| - 1], p)
  }

  /** `name.replace(/\.[^/.]+$/, '')`: drops the final extension, if any. */
  function StripExtension(name: string): (r: string)
    ensures (exists i :: ExtensionAt(name, i)) ==> ExtensionAt(name, |r|) && r == name[..|r|]
    ensures (forall i :: !ExtensionAt(name, i)) ==> r == name
  {
    var k := LastIndexWhere(name, c => c == '.' || c == '/');
    if 0 <= k < |name| - 1 && name[k] == '.' then
      assert ExtensionAt(name, k);
      name[..k]
    else name
  }

  /** A name has at most one extension, so only the last one is removed. */
  lemma ExtensionUnique(name: string, i: int, j: int)
    requires ExtensionAt(name, i) && ExtensionAt(name, j)
    ensures i == j
  {
  }

  lemma StripExtensionExamples()
    ensures StripExtension("results.xml") == "results"
    ensures StripExtension("suite.tar.gz") == "suite.tar"
    ensures StripExtension("report") == "report"
    ensures StripExtension("report.") == "report."
    ensures StripExtension("build.d/report") == "build.d/report"
  {
    assert ExtensionAt("results.xml", 7);
    assert ExtensionAt("suite.tar.gz", 9);
    ExtensionUnique("results.xml", 7, |StripExtension("results.xml")|);
    ExtensionUnique("suite.tar.gz", 9, |StripExtension("suite.tar.gz")|);
    assert forall i :: 0 <= i < 6 ==> "report."[i] != '.';
    assert forall i :: 0 <= i < 14 && i != 5 ==> "build.d/report"[i] != '.';
    assert "build.d/report"[7] == '/';
  }

  /** The run name the form proposes for a chosen file on the day `today`. */
  function DefaultRunName(fileName: string, today: string): (r: string)
    ensures |r| >= 5 && r[..5] == "Run: "
  {
    "Run: " + StripExtension(fileName) + " (" + today + ")"
  }

  /** The proposed run name is never blank, so choosing a file is enough to pass
      the upload guard. */
  lemma DefaultRunNameNotBlank(fileName: string, today: string)
    ensures !IsBlank(DefaultRunName(fileName, today))
  {
    var r := DefaultRunName(fileName, today);
    BlankIffAllWhitespace(r);
    assert r[0] == 'R' && !IsWhitespace(r[0]);
  }

  class UploadForm {
    var selectedFile: Option<File>
    var uploadProgress: int
    var runName: string
    var environment: string

    constructor()
      ensures selectedFile == None && uploadProgress == 0 && runName == "" && environment == ""
    {
      selectedFile := None;
      uploadProgress := 0;
      runName := "";
      environment := "";
    }

    /** Choosing files: the first one becomes the selection and proposes a run name. */
    method HandleFileChange(files: seq<File>, today: string)
      modifies this
      ensures files == [] ==> selectedFile == old(selectedFile) && runName == old(runName)
      ensures files != [] ==> selectedFile == Some(files[0]) && runName == DefaultRunName(files[0].name, today)
      ensures uploadProgress == old(uploadProgress) && environment == old(environment)
    {
      if |files| > 0 {
        var file := files[0];
        selectedFile := Some(file);
        var fileName := StripExtension(file.name);
        runName := "Run: " + fileName + " (" + today + ")";
      }
    }

    /** The progress interval firing `ticks` times. */
    method RunTicks(ticks: nat)
      modifies this
      ensures uploadProgress == Ticks(old(uploadProgress), ticks)
      ensures selectedFile == old(selectedFile) && runName == old(runName) && environment == old(environment)
    {
      var i := 0;
      while i < ticks
        invariant 0 <= i <= ticks
        invariant uploadProgress == Ticks(old(uploadProgress), i)
        invariant selectedFile == old(selectedFile) && runName == old(runName) && environment == old(environment)
      {
        uploadProgress := Tick(uploadProgress);
        i := i + 1;
      }
    }

    /** The upload mutation's success handler: it clears the form. */
    method OnSuccess()
      modifies this
      ensures selectedFile.None? && uploadProgress == 0 && runName == "" && environment == ""
    {
      selectedFile := None;
      uploadProgress := 0;
      runName := "";
      environment := "";
    }

    /** Submits the form. `ticks` is how many times the progress interval fires
        while the request is in flight and `succeeds` whether the server accepts it.
        Without a file or with a blank run name nothing is sent and nothing changes.
        A success clears the form and shows 100; a failure keeps the form and leaves
        the progress where the ticks brought it. */
    method HandleUpload(ticks: nat, succeeds: bool) returns (request: Option<UploadRequest>)
      modifies this
      ensures old(selectedFile).None? || IsBlank(old(runName)) ==>
        request.None? && selectedFile == old(selectedFile) && uploadProgress == old(uploadProgress)
        && runName == old(runName) && environment == old(environment)
      ensures old(selectedFile).Some? && !IsBlank(old(runName)) ==>
        request == Some(UploadRequest(old(selectedFile).value, old(runName),
                                      if old(environment) != "" then Some(old(environment)) else None))
      ensures request.Some? && succeeds ==>
        selectedFile.None? && uploadProgress == 100 && runName == "" && environment == ""
      ensures request.Some? && !succeeds ==>
        selectedFile == old(selectedFile) && runName == old(runName) && environment == old(environment)
        && uploadProgress == Ticks(old(uploadProgress), ticks)
      ensures request.Some? ==> !IsBlank(request.value.name)
    {
      if selectedFile.None? || IsBlank(runName) {
        return None;
      }
      var env := if environment != "" then Some(environment) else None;
      request := Some(UploadRequest(selectedFile.value, runName, env));
      RunTicks(ticks);
      if succeeds {
        OnSuccess();
        uploadProgress := 100;
      }
    }
  }

  // ---------------------------------------------------------------------------
  // Formatting

  /** `formatDuration` below one second: the integer followed by `ms`. The
      seconds branch is `None`. */
  function FormatDuration(milliseconds: int): (r: Option<string>)
    ensures r.Some? <==> milliseconds < 1000
    ensures r.Some? ==> |r.value| >= 3 && r.value[|r.value| - 2..] == "ms"
    ensures r.Some? ==> var digits := r.value[..|r.value| - 2];
      |digits| >= 1 && (digits[0] == '-' || '0' <= digits[0] <= '9')
      && (forall i :: 1 <= i < |digits| ==> '0' <= digits[i] <= '9')
      && ParseInt(digits) == milliseconds
  {
    if milliseconds < 1000 then
      IntToStringRoundTrip(milliseconds);
      var s := IntToString(milliseconds) + "ms";
      assert s[..|s| - 2] == IntToString(milliseconds);
      Some(s)
    else None
  }

  /** The badge classes of a status; anything unknown is gray. */
  function GetStatusBadge(status: string): string {
    match status
    case "passed" => "bg-green-100 text-green-800"
    case "failed" => "bg-red-100 text-red-800"
    case "skipped" => "bg-yellow-100 text-yellow-800"
    case "error" => "bg-purple-100 text-purple-800"
    case _ => "bg-gray-100 text-gray-800"
  }

  /** Every status of a result gets its own colour, none of them the gray default. */
  lemma StatusBadgeDistinct(a: Status, b: Status)
    ensures GetStatusBadge(StatusName(a)) != "bg-gray-100 text-gray-800"
    ensures a != b ==> GetStatusBadge(StatusName(a)) != GetStatusBadge(StatusName(b))
  {
  }
}
