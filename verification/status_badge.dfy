/** The status badge: a title-case label made from a hyphenated status, and the
    colour classes of each status. */
module StatusBadge {
  import opened Text

  /** `word.charAt(0).toUpperCase() + word.slice(1)`. */
  function Capitalize(word: string): (r: string)
    ensures |r| == |word|
    ensures word != "" ==> r[0] == UpperChar(word[0]) && r[1..] == word[1..]
  {
    if word == "" then "" else [UpperChar(word[0])] + word[1..]
  }

  /** `words.map(Capitalize)`. */
  function CapitalizeAll(words: seq<string>): (r: seq<string>)
    ensures |r| == |words|
    ensures forall i :: 0 <= i < |r| ==> r[i] == Capitalize(words[i])
    decreases |words|
  {
    if words == [] then [] else [Capitalize(words[0])] + CapitalizeAll(words[1..])
  }

  /** `status.split('-').map(Capitalize).join(' ')`. */
  function Label(status: string): string {
    Join(CapitalizeAll(Split(status, '-')), " ")
  }

  /** Capitalising changes no space. */
  lemma CapitalizeSpaces(word: string)
    ensures multiset(Capitalize(word))[' '] == multiset(word)[' ']
  {
    if word != "" {
      var r := Capitalize(word);
      assert r == [r[0]] + word[1..];
      assert word == [word[0]] + word[1..];
      assert r[0] == ' ' <==> word[0] == ' ';
    }
  }

  lemma {:induction false} CapitalizeAllSpaces(words: seq<string>)
    ensures SumCount(CapitalizeAll(words), ' ') == SumCount(words, ' ')
    decreases |words|
  {
    if words != [] {
      CapitalizeSpaces(words[0]);
      CapitalizeAllSpaces(words[1..]);
      assert CapitalizeAll(words)[1..] == CapitalizeAll(words[1..]);
    }
  }

  /** Each hyphen becomes one space and every other space stays: a status without
      spaces, as every status is, gets one space per hyphen. */
  lemma LabelSpaces(status: string)
    ensures multiset(Label(status))[' '] == multiset(status)['-'] + multiset(status)[' ']
  {
    var parts := Split(status, '-');
    SplitLength(status, '-');
    CountInJoin(CapitalizeAll(parts), ' ', ' ');
    CapitalizeAllSpaces(parts);
    SumCountSplit(status, '-', ' ');
  }

  /** A two-word status `a-b` splits into its two words. */
  lemma SplitTwoWords(a: string, b: string)
    requires '-' !in a && '-' !in b
    ensures Split(a + "-" + b, '-') == [a, b]
  {
    SplitAtFirst(a, b, '-');
    SplitWithoutSeparator(b, '-');
  }

  /** `a-b` is labelled `A B`. */
  lemma LabelTwoWords(a: string, b: string)
    requires '-' !in a && '-' !in b
    ensures Label(a + "-" + b) == Capitalize(a) + " " + Capitalize(b)
  {
    SplitTwoWords(a, b);
    assert CapitalizeAll([a, b]) == [Capitalize(a), Capitalize(b)];
    assert Join([Capitalize(a), Capitalize(b)], " ") == Capitalize(a) + " " + Join([Capitalize(b)], " ");
  }

  lemma LabelInProgress(status: string)
    requires status == "in-progress"
    ensures Label(status) == "In Progress"
  {
    assert status == "in" + "-" + "progress";
    LabelTwoWords("in", "progress");
    assert Capitalize("in") == "In";
    assert Capitalize("progress") == "Progress";
    assert "In" + " " + "Progress" == "In Progress";
  }

  lemma LabelNotRun(status: string)
    requires status == "not-run"
    ensures Label(status) == "Not Run"
  {
    assert status == "not" + "-" + "run";
    LabelTwoWords("not", "run");
    assert Capitalize("not") == "Not";
    assert Capitalize("run") == "Run";
    assert "Not" + " " + "Run" == "Not Run";
  }

  /** A single word is only capitalised. */
  lemma LabelOneWord(word: string)
    requires '-' !in word
    ensures Label(word) == Capitalize(word)
  {
    SplitWithoutSeparator(word, '-');
  }

  /** `getStatusStyles`. */
  function GetStatusStyles(status: string): string {
    match status
    case "passed" => "bg-green-100 text-green-800 border-green-200"
    case "failed" => "bg-red-100 text-red-800 border-red-200"
    case "blocked" => "bg-gray-100 text-gray-800 border-gray-200"
    case "skipped" => "bg-blue-100 text-blue-800 border-blue-200"
    case "pending" => "bg-amber-100 text-amber-800 border-amber-200"
    case "in-progress" => "bg-purple-100 text-purple-800 border-purple-200"
    case "not-run" => "bg-slate-100 text-slate-800 border-slate-200"
    case _ => "bg-gray-100 text-gray-800 border-gray-200"
  }

  /** The seven statuses a badge is meant for. */
  datatype StatusType = PassedStatus | FailedStatus | BlockedStatus | SkippedStatus | PendingStatus | InProgressStatus | NotRunStatus

  function StatusTypeName(t: StatusType): string {
    match t
    case PassedStatus => "passed"
    case FailedStatus => "failed"
    case BlockedStatus => "blocked"
    case SkippedStatus => "skipped"
    case PendingStatus => "pending"
    case InProgressStatus => "in-progress"
    case NotRunStatus => "not-run"
  }

  /** A status outside the seven is shown like `blocked`. */
  lemma UnknownStatusLooksBlocked(status: string)
    requires forall t :: status != StatusTypeName(t)
    ensures GetStatusStyles(status) == GetStatusStyles("blocked")
  {
    assert status != StatusTypeName(PassedStatus) && status != StatusTypeName(FailedStatus);
    assert status != StatusTypeName(BlockedStatus) && status != StatusTypeName(SkippedStatus);
    assert status != StatusTypeName(PendingStatus) && status != StatusTypeName(InProgressStatus);
    assert status != StatusTypeName(NotRunStatus);
  }
}
