/** Live review reads: the plan of shell commands that show captured blobs, and the revision ranges
    a live target may select. */
module LiveReview {
  import opened Prelude
  import opened Paths
  import opened Capture

  // ---------------------------------------------------------------- shell words

  /** Quoting state of the shell's token recognition. */
  datatype Mode = Unquoted | InSingle | InDouble

  predicate Blank(c: char) { c == ' ' || c == '\t' || c == '\n' }

  /** Characters that stand for themselves outside quotes: no operator, expansion, pattern,
      comment or escape begins with one of them. */
  predicate Ordinary(c: char) {
    'a' <= c <= 'z' || 'A' <= c <= 'Z' || '0' <= c <= '9' || c in "-_./:,@%+="
  }

  function Ended(word: Option<string>): seq<string> {
    if word.Some? then [word.value] else []
  }

  function Grown(word: Option<string>, c: char): Option<string> {
    Some((if word.Some? then word.value else "") + [c])
  }

  function Started(word: Option<string>): Option<string> {
    Some(if word.Some? then word.value else "")
  }

  /** Sections 2.2.2 and 2.2.3 of the Shell Command Language (IEEE Std 1003.1-2017), for commands
      without expansions: single quotes keep every character, double quotes every one but the
      dollar sign, backquote, backslash and double quote.  Anything that would need more than quote
      removal, an unclosed quote or a NUL is an error. */
  function Words(text: string, mode: Mode, word: Option<string>): Result<seq<string>>
    decreases |text|
  {
    if text == "" then if mode.Unquoted? then Ok(Ended(word)) else Err
    else if text[0] == '\0' then Err
    else
      match mode
      case InSingle =>
        if text[0] == '\'' then Words(text[1..], Unquoted, word) else Words(text[1..], InSingle, Grown(word, text[0]))
      case InDouble =>
        if text[0] == '"' then Words(text[1..], Unquoted, word)
        else if text[0] in "$`\\" then Err
        else Words(text[1..], InDouble, Grown(word, text[0]))
      case Unquoted =>
        if text[0] == '\'' then Words(text[1..], InSingle, Started(word))
        else if text[0] == '"' then Words(text[1..], InDouble, Started(word))
        else if Blank(text[0]) then
          match Words(text[1..], Unquoted, None) case Ok(rest) => Ok(Ended(word) + rest) case Err => Err
        else if Ordinary(text[0]) then Words(text[1..], Unquoted, Grown(word, text[0]))
        else Err
  }

  // ---------------------------------------------------------------- quoting

  const QUOTED_QUOTE := "'\"'\"'"

  /** strings.ReplaceAll of the single quote: close, quote one in double quotes, open again. */
  function Escaped(operand: string): string {
    if operand == "" then ""
    else (if operand[0] == '\'' then QUOTED_QUOTE else [operand[0]]) + Escaped(operand[1..])
  }

  function Quoted(operand: string): string { "'" + Escaped(operand) + "'" }

  function Spaced(word: string, rest: string): string { word + (" " + rest) }

  function ShowCommand(operand: string): string {
    Spaced("git", Spaced("--no-pager", Spaced("show", Quoted(operand))))
  }

  lemma QuoteIsCarried(rest: string, word: string)
    ensures Words(QUOTED_QUOTE + rest, InSingle, Some(word)) == Words(rest, InSingle, Some(word + "'"))
  {
    var t := QUOTED_QUOTE + rest;
    assert t[0] == '\'' && t[1] == '"' && t[2] == '\'' && t[3] == '"' && t[4] == '\'';
    assert t[1..][1..] == t[2..] && t[2..][1..] == t[3..] && t[3..][1..] == t[4..] && t[4..][1..] == rest;
    assert Words(t, InSingle, Some(word)) == Words(t[1..], Unquoted, Some(word));
    assert Words(t[1..], Unquoted, Some(word)) == Words(t[2..], InDouble, Some(word));
    assert Words(t[2..], InDouble, Some(word)) == Words(t[3..], InDouble, Some(word + "'"));
    assert Words(t[3..], InDouble, Some(word + "'")) == Words(t[4..], Unquoted, Some(word + "'"));
  }

  lemma {:induction false} EscapedIsCarried(operand: string, rest: string, word: string)
    requires '\0' !in operand
    ensures Words(Escaped(operand) + rest, InSingle, Some(word)) == Words(rest, InSingle, Some(word + operand))
  {
    if operand == "" {
      assert Escaped(operand) + rest == rest && word + operand == word;
    } else {
      var tail := Escaped(operand[1..]) + rest;
      assert operand == [operand[0]] + operand[1..];
      assert word + [operand[0]] + operand[1..] == word + operand;
      EscapedIsCarried(operand[1..], rest, word + [operand[0]]);
      if operand[0] == '\'' {
        assert Escaped(operand) + rest == QUOTED_QUOTE + tail;
        QuoteIsCarried(tail, word);
      } else {
        assert Escaped(operand) + rest == [operand[0]] + tail;
        assert ([operand[0]] + tail)[1..] == tail;
      }
    }
  }

  lemma {:induction false} NulIsRefused(operand: string, rest: string, word: string)
    requires '\0' in operand
    ensures Words(Escaped(operand) + rest, InSingle, Some(word)) == Err
  {
    var tail := Escaped(operand[1..]) + rest;
    if operand[0] == '\0' {
      assert (Escaped(operand) + rest)[0] == '\0';
    } else {
      NulIsRefused(operand[1..], rest, word + [operand[0]]);
      if operand[0] == '\'' {
        assert Escaped(operand) + rest == QUOTED_QUOTE + tail;
        QuoteIsCarried(tail, word);
      } else {
        assert Escaped(operand) + rest == [operand[0]] + tail;
        assert ([operand[0]] + tail)[1..] == tail;
      }
    }
  }

  lemma {:induction false} WordIsRead(name: string, rest: string, word: string)
    requires forall c :: c in name ==> Ordinary(c)
    ensures Words(name + rest, Unquoted, Some(word)) == Words(rest, Unquoted, Some(word + name))
  {
    if name == "" {
      assert name + rest == rest && word + name == word;
    } else {
      assert (name + rest)[1..] == name[1..] + rest && name[0] in name;
      WordIsRead(name[1..], rest, word + [name[0]]);
      assert word + [name[0]] + name[1..] == word + name;
    }
  }

  function Preceded(word: string, rest: Result<seq<string>>): Result<seq<string>> {
    match rest case Ok(words) => Ok([word] + words) case Err => Err
  }

  lemma FirstOfWord(c: char, rest: string, text: string)
    requires Ordinary(c) && text != "" && text[0] == c && text[1..] == rest
    ensures Words(text, Unquoted, None) == Words(rest, Unquoted, Some([c]))
  {
    assert "" + [c] == [c];
  }

  lemma NameIsRead(name: string, rest: string)
    requires name != "" && forall c :: c in name ==> Ordinary(c)
    ensures Words(Spaced(name, rest), Unquoted, None) == Preceded(name, Words(rest, Unquoted, None))
  {
    var tail := " " + rest;
    assert Spaced(name, rest)[0] == name[0] && Spaced(name, rest)[1..] == name[1..] + tail && name[0] in name;
    FirstOfWord(name[0], name[1..] + tail, Spaced(name, rest));
    WordIsRead(name[1..], tail, [name[0]]);
    assert [name[0]] + name[1..] == name;
    assert tail[0] == ' ' && tail[1..] == rest;
    assert Ended(Some(name)) == [name];
  }

  lemma QuotedIsRead(operand: string)
    ensures Words(Quoted(operand), Unquoted, None) == if '\0' in operand then Err else Ok([operand])
  {
    assert Quoted(operand)[0] == '\'' && Quoted(operand)[1..] == Escaped(operand) + "'";
    if '\0' in operand {
      NulIsRefused(operand, "'", "");
    } else {
      EscapedIsCarried(operand, "'", "");
      assert "" + operand == operand && "'"[1..] == "";
    }
  }

  lemma NamesAreOrdinary()
    ensures forall c :: c in "git" ==> Ordinary(c)
    ensures forall c :: c in "--no-pager" ==> Ordinary(c)
    ensures forall c :: c in "show" ==> Ordinary(c)
  {
  }

  /** The shell splits the command into git, --no-pager, show and exactly the operand, if and only
      if the operand is free of NUL; otherwise it refuses it. */
  lemma ShowCommandSplits(operand: string)
    ensures Words(ShowCommand(operand), Unquoted, None)
         == if '\0' in operand then Err else Ok(["git", "--no-pager", "show", operand])
  {
    NamesAreOrdinary();
    QuotedIsRead(operand);
    NameIsRead("show", Quoted(operand));
    NameIsRead("--no-pager", Spaced("show", Quoted(operand)));
    NameIsRead("git", Spaced("--no-pager", Spaced("show", Quoted(operand))));
    assert ["git"] + (["--no-pager"] + (["show"] + [operand])) == ["git", "--no-pager", "show", operand];
  }

  // ---------------------------------------------------------------- the read plan

  datatype Scope = Workspace | Stage | Head | Commit | Diff

  datatype Side = Before | After | Worktree | Index

  datatype Target = Target(scope: Scope, base: string, head: string, emptyBase: bool)

  datatype Read = Read(side: Side, path: string, command: string)

  function AfterSide(scope: Scope): Side {
    match scope case Workspace => Worktree case Stage => Index case _ => After
  }

  predicate SkipsBefore(target: Target) {
    target.scope.Workspace? || target.emptyBase || !ValidGitObjectID(target.base)
  }

  function ObjectOf(target: Target, side: Side): string {
    if side.Before? then target.base else if target.scope.Stage? then "" else target.head
  }

  function ReadOf(target: Target, side: Side, path: string): Read {
    Read(side, path, if target.scope.Workspace? then "" else ShowCommand(ObjectOf(target, side) + ":" + path))
  }

  function ReadsOf(target: Target, side: Side, paths: seq<string>): (plan: seq<Read>)
    ensures |plan| == |paths|
  {
    seq(|paths|, i requires 0 <= i < |paths| => ReadOf(target, side, paths[i]))
  }

  /** One read per listed path, the before side first when it is shown at all. */
  function ReadPlan(target: Target, list: Side -> Option<seq<string>>): Result<seq<Read>> {
    var after := AfterSide(target.scope);
    if (!SkipsBefore(target) && list(Before).None?) || list(after).None? then Err
    else
      Ok((if SkipsBefore(target) then [] else ReadsOf(target, Before, list(Before).value))
         + ReadsOf(target, after, list(after).value))
  }

  /** LiveSourceReadPlan; `list` is what the source lists on each side, if it can. */
  method LiveSourceReadPlan(target: Target, list: Side -> Option<seq<string>>) returns (result: Result<seq<Read>>)
    ensures result == ReadPlan(target, list)
  {
    var plan: seq<Read> := [];
    var workspace := target.scope.Workspace?;
    if !workspace && !target.emptyBase && ValidGitObjectID(target.base) {
      var paths := list(Before);
      if paths.None? { return Err; }
      plan := PlanSide(target, Before, target.base, workspace, paths.value);
    }
    var afterSide := match target.scope case Workspace => Worktree case Stage => Index case _ => After;
    var listed := list(afterSide);
    if listed.None? { return Err; }
    var more := PlanSide(target, afterSide, if target.scope.Stage? then "" else target.head, workspace, listed.value);
    result := Ok(plan + more);
  }

  method PlanSide(target: Target, side: Side, gitObject: string, workspace: bool, paths: seq<string>)
    returns (plan: seq<Read>)
    requires gitObject == ObjectOf(target, side) && (workspace <==> target.scope.Workspace?)
    ensures plan == ReadsOf(target, side, paths)
  {
    plan := [];
    for i := 0 to |paths|
      invariant plan == ReadsOf(target, side, paths)[..i]
    {
      var command := "";
      if !workspace { command := ShowCommand(gitObject + ":" + paths[i]); }
      plan := plan + [Read(side, paths[i], command)];
    }
  }

  lemma ObjectHasNoNul(target: Target, side: Side)
    requires target.head == "" || ValidGitObjectID(target.head)
    requires side.Before? ==> ValidGitObjectID(target.base)
    ensures '\0' !in ObjectOf(target, side)
  {
  }

  lemma ReadOfPlan(target: Target, list: Side -> Option<seq<string>>, k: nat)
    requires ReadPlan(target, list).Ok? && k < |ReadPlan(target, list).value|
    ensures var read := ReadPlan(target, list).value[k];
            && read == ReadOf(target, read.side, read.path)
            && (read.side == AfterSide(target.scope) || (read.side == Before && !SkipsBefore(target)))
  {
    var before := if SkipsBefore(target) then [] else ReadsOf(target, Before, list(Before).value);
    var read := ReadPlan(target, list).value[k];
    if k < |before| {
      assert read == ReadOf(target, Before, list(Before).value[k]);
    } else {
      assert read == ReadOf(target, AfterSide(target.scope), list(AfterSide(target.scope)).value[k - |before|]);
    }
  }

  /** Every command of a plan over valid paths is run by the shell as showing exactly the blob of
      that path on that side; a workspace is read without commands. */
  lemma PlannedCommandsSplit(target: Target, list: Side -> Option<seq<string>>, k: nat)
    requires ReadPlan(target, list).Ok? && k < |ReadPlan(target, list).value|
    requires target.head == "" || ValidGitObjectID(target.head)
    requires ValidPath(ReadPlan(target, list).value[k].path)
    ensures var read := ReadPlan(target, list).value[k];
            && (target.scope.Workspace? ==> read.command == "" && read.side.Worktree?)
            && (!target.scope.Workspace? ==>
                  Words(read.command, Unquoted, None)
                  == Ok(["git", "--no-pager", "show", ObjectOf(target, read.side) + ":" + read.path]))
  {
    var read := ReadPlan(target, list).value[k];
    ReadOfPlan(target, list, k);
    ObjectHasNoNul(target, read.side);
    ShowCommandSplits(ObjectOf(target, read.side) + ":" + read.path);
  }

  /** What each kind of live target shows: a workspace its worktree, without commands; the stage its
      index, which git names by a colon alone; every other target its head.  What was there before is
      shown from the base, unless the target is a workspace or has no base to show. */
  lemma PlanShows(target: Target, list: Side -> Option<seq<string>>, k: nat)
    requires ReadPlan(target, list).Ok? && k < |ReadPlan(target, list).value|
    ensures var plan := ReadPlan(target, list).value;
            var before := if target.scope == Workspace || target.emptyBase || !ValidGitObjectID(target.base) then []
                          else list(Before).value;
            var side := if target.scope == Workspace then Worktree else if target.scope == Stage then Index else After;
            var blob := if k < |before| then target.base + ":" + before[k]
                        else (if target.scope == Stage then "" else target.head) + ":" + list(side).value[k - |before|];
            && |plan| == |before| + |list(side).value|
            && plan[k].side == (if k < |before| then Before else side)
            && plan[k].path == (if k < |before| then before[k] else list(side).value[k - |before|])
            && plan[k].command == (if target.scope == Workspace then "" else ShowCommand(blob))
  {
    var before := if SkipsBefore(target) then [] else ReadsOf(target, Before, list(Before).value);
    assert k < |before| ==> before[k] == ReadOf(target, Before, list(Before).value[k]);
  }

  /** A plan is made unless a side that it shows cannot be listed. */
  lemma PlanNeedsLists(target: Target, list: Side -> Option<seq<string>>)
    ensures ReadPlan(target, list).Ok? <==>
              && list(if target.scope == Workspace then Worktree else if target.scope == Stage then Index else After).Some?
              && (target.scope != Workspace && !target.emptyBase && ValidGitObjectID(target.base) ==> list(Before).Some?)
  {
  }

  // ---------------------------------------------------------------- revision ranges

  predicate DotsAt(text: string, p: nat, k: nat) {
    p + k <= |text| && forall i :: p <= i < p + k ==> text[i] == '.'
  }

  ghost predicate HasDots(text: string, k: nat) {
    exists p :: 0 <= p <= |text| && DotsAt(text, p, k)
  }

  /** strings.Index of k dots. */
  function FirstDots(text: string, k: nat): (at: Option<nat>)
    ensures at.Some? ==> DotsAt(text, at.value, k) && forall p :: 0 <= p < at.value ==> !DotsAt(text, p, k)
    ensures at.None? ==> forall p :: 0 <= p <= |text| ==> !DotsAt(text, p, k)
  {
    if DotsAt(text, 0, k) then Some(0)
    else if text == "" then None
    else
      var rest := FirstDots(text[1..], k);
      assert forall p :: 1 <= p <= |text| ==> (DotsAt(text, p, k) <==> DotsAt(text[1..], p - 1, k)) by {
        forall p | 1 <= p <= |text| ensures DotsAt(text, p, k) <==> DotsAt(text[1..], p - 1, k) { Shifted(text, p, k); }
      }
      if rest.Some? then Some(rest.value + 1) else None
  }

  lemma Shifted(text: string, p: nat, k: nat)
    requires 1 <= p <= |text|
    ensures DotsAt(text, p, k) <==> DotsAt(text[1..], p - 1, k)
  {
    if DotsAt(text[1..], p - 1, k) {
      assert forall i :: p <= i < p + k ==> text[i] == text[1..][i - 1];
    }
  }

  datatype Range = Range(left: string, right: string, dots: nat)

  /** liveRangeOperands: the operator is three dots wherever three dots occur. */
  function RangeOperands(value: string): Option<Range> {
    var dots := if FirstDots(value, 3).Some? then 3 else 2;
    match FirstDots(value, dots)
    case None => None
    case Some(at) =>
      var left, right := value[..at], value[at + dots..];
      if FirstDots(left, 2).Some? || FirstDots(right, 2).Some? || HasSuffix(left, ".") || HasPrefix(right, ".") then None
      else Some(Range(left, right, dots))
  }

  function Operator(dots: nat): string { if dots == 3 then "..." else ".." }

  function Spelled(range: Range): string {
    range.left + Operator(range.dots) + range.right
  }

  /** Operands around two or three dots, without a range of their own and without a dot that could
      be taken for part of the operator. */
  ghost predicate Separated(range: Range) {
    && (range.dots == 2 || range.dots == 3)
    && !HasDots(range.left, 2) && !HasDots(range.right, 2)
    && !HasSuffix(range.left, ".") && !HasPrefix(range.right, ".")
  }

  lemma SplitAtDots(text: string, at: nat, dots: nat)
    requires dots == 2 || dots == 3
    requires DotsAt(text, at, dots)
    ensures text == text[..at] + Operator(dots) + text[at + dots..]
  {
    assert text[at..at + dots] == Operator(dots);
    assert text == text[..at] + text[at..at + dots] + text[at + dots..];
  }

  lemma OperandsAreSeparated(value: string)
    requires RangeOperands(value).Some?
    ensures Separated(RangeOperands(value).value) && Spelled(RangeOperands(value).value) == value
  {
    var dots: nat := if FirstDots(value, 3).Some? then 3 else 2;
    SplitAtDots(value, FirstDots(value, dots).value, dots);
  }

  lemma EdgesAreNotDots(range: Range)
    requires Separated(range)
    ensures range.left != "" ==> range.left[|range.left| - 1] != '.'
    ensures range.right != "" ==> range.right[0] != '.'
    ensures forall p :: 0 <= p < |range.left| - 1 ==> range.left[p] != '.' || range.left[p + 1] != '.'
    ensures forall p :: 0 <= p < |range.right| - 1 ==> range.right[p] != '.' || range.right[p + 1] != '.'
  {
    var left, right := range.left, range.right;
    forall p | 0 <= p < |left| - 1 ensures left[p] != '.' || left[p + 1] != '.' { assert !DotsAt(left, p, 2); }
    forall p | 0 <= p < |right| - 1 ensures right[p] != '.' || right[p + 1] != '.' { assert !DotsAt(right, p, 2); }
    if left != "" { assert left[|left| - 1..] == [left[|left| - 1]]; }
    if right != "" { assert right[..1] == [right[0]]; }
  }

  /** Dots in a spelled range are dots of its operator. */
  lemma OtherDots(range: Range, p: nat, k: nat)
    requires Separated(range) && 2 <= k <= 3 && p <= |Spelled(range)| && DotsAt(Spelled(range), p, k)
    ensures p >= |range.left| && p + k <= |range.left| + range.dots
  {
    var text, l, r := Spelled(range), |range.left|, |range.left| + range.dots;
    EdgesAreNotDots(range);
    assert forall i :: 0 <= i < l ==> text[i] == range.left[i];
    assert forall i :: r <= i < |text| ==> text[i] == range.right[i - r];
    assert text[p] == '.' && text[p + 1] == '.' && text[p + k - 1] == '.' && text[p + k - 2] == '.';
  }

  lemma SeparatedIsFound(range: Range)
    requires Separated(range)
    ensures RangeOperands(Spelled(range)) == Some(range)
  {
    var text, l := Spelled(range), |range.left|;
    OperatorIsThere(range);
    if FirstDots(text, 3).Some? { OtherDots(range, FirstDots(text, 3).value, 3); }
    assert FirstDots(text, 3).Some? <==> range.dots == 3;
    assert FirstDots(text, range.dots).Some?;
    OtherDots(range, FirstDots(text, range.dots).value, range.dots);
    assert FirstDots(text, range.dots).value == l;
    assert text[..l] == range.left && text[l + range.dots..] == range.right;
    assert FirstDots(range.left, 2).None? && FirstDots(range.right, 2).None?;
  }

  lemma OperatorIsThere(range: Range)
    requires Separated(range)
    ensures |range.left| <= |Spelled(range)| && DotsAt(Spelled(range), |range.left|, range.dots)
  {
  }

  /** A value is a range exactly when it can be written as separated operands, and then in only one
      way. */
  lemma RangesParseUniquely(value: string)
    ensures RangeOperands(value).Some? <==> exists range :: Separated(range) && Spelled(range) == value
    ensures forall range :: Separated(range) && Spelled(range) == value ==> RangeOperands(value) == Some(range)
  {
    if RangeOperands(value).Some? { OperandsAreSeparated(value); }
    forall range | Separated(range) && Spelled(range) == value ensures RangeOperands(value) == Some(range) {
      SeparatedIsFound(range);
    }
  }
}
