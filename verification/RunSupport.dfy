/** Numbered names: invocation directories, epoch records and the raw streams of a diagnostic run. */
module RunSupport {
  import opened Prelude
  import opened Ordering
  import opened Decimal

  /** strings.Cut at the first separator. */
  function Cut(text: string, sep: char): Option<(string, string)> {
    if text == "" then None
    else if text[0] == sep then Some(("", text[1..]))
    else
      match Cut(text[1..], sep)
      case Some((before, after)) => Some(([text[0]] + before, after))
      case None => None
  }

  lemma {:induction false} CutAt(before: string, after: string, sep: char)
    requires sep !in before
    ensures Cut(before + [sep] + after, sep) == Some((before, after))
  {
    var text := before + [sep] + after;
    if before == "" {
      assert text == [sep] + after;
    } else {
      assert text[1..] == before[1..] + [sep] + after && text[0] == before[0];
      CutAt(before[1..], after, sep);
      assert before == [before[0]] + before[1..];
    }
  }

  lemma {:induction false} CutJoins(text: string, sep: char)
    requires Cut(text, sep).Some?
    ensures var (before, after) := Cut(text, sep).value; text == before + [sep] + after && sep !in before
  {
    if text[0] != sep { CutJoins(text[1..], sep); }
    assert text == [text[0]] + text[1..];
  }

  // ---------------------------------------------------------------- invocation directories

  datatype Purpose = Initial | Retry | Repair | Extract {
    function Name(): string {
      match this case Initial => "initial" case Retry => "retry" case Repair => "repair" case Extract => "extract"
    }
  }

  predicate PurposeName(name: string) { name in ["initial", "retry", "repair", "extract"] }

  /** canonicalInvocationDirectory */
  predicate CanonicalInvocationDirectory(value: string) {
    var parts := Cut(value, '-');
    parts.Some? && IsIdentifier(parts.value.0, 3) && PurposeName(parts.value.1)
  }

  /** What `%03d-%s` prints. */
  function InvocationDirectory(ordinal: nat, purpose: Purpose): string {
    Pad(ordinal, 3) + "-" + purpose.Name()
  }

  lemma NoDashInNumbers(n: nat, width: nat)
    ensures '-' !in Pad(n, width) && '/' !in Pad(n, width)
  {
    PadDenotes(n, width);
  }

  lemma NamesArePurposes(name: string) returns (purpose: Purpose)
    requires PurposeName(name)
    ensures purpose.Name() == name
  {
    purpose := if name == "initial" then Initial else if name == "retry" then Retry
               else if name == "repair" then Repair else Extract;
  }

  /** The grammar accepts exactly what is printed for a positive ordinal and a purpose. */
  lemma DirectoriesArePrinted(value: string)
    ensures CanonicalInvocationDirectory(value) <==>
              exists ordinal: nat, purpose: Purpose :: ordinal > 0 && value == InvocationDirectory(ordinal, purpose)
  {
    if CanonicalInvocationDirectory(value) {
      var (before, after) := Cut(value, '-').value;
      CutJoins(value, '-');
      IdentifierIsPrinted(before, 3);
      var purpose := NamesArePurposes(after);
      assert value == InvocationDirectory(Value(before), purpose);
    }
    forall ordinal: nat, purpose: Purpose | ordinal > 0 && value == InvocationDirectory(ordinal, purpose)
      ensures CanonicalInvocationDirectory(value)
    {
      NoDashInNumbers(ordinal, 3);
      CutAt(Pad(ordinal, 3), purpose.Name(), '-');
      PrintedIsIdentifier(ordinal, 3);
    }
  }

  /** A printed directory names one ordinal and one purpose. */
  lemma DirectoryBinds(m: nat, p: Purpose, n: nat, q: Purpose)
    ensures InvocationDirectory(m, p) == InvocationDirectory(n, q) <==> m == n && p == q
  {
    NoDashInNumbers(m, 3);
    NoDashInNumbers(n, 3);
    CutAt(Pad(m, 3), p.Name(), '-');
    CutAt(Pad(n, 3), q.Name(), '-');
    if Pad(m, 3) == Pad(n, 3) { PadInjective(m, n, 3); }
    if p.Name() == q.Name() { NamesDiffer(p, q); }
  }

  lemma NamesDiffer(p: Purpose, q: Purpose)
    requires p.Name() == q.Name()
    ensures p == q
  {
    assert |p.Name()| == |q.Name()| && p.Name()[2] == q.Name()[2];
  }

  /** Names as they are spelled around the padded number. */
  lemma NamesAsSpelled(n: nat)
    ensures InvocationDirectory(n, Initial) == Pad(n, 3) + "-initial" && InvocationDirectory(n, Retry) == Pad(n, 3) + "-retry"
    ensures InvocationDirectory(n, Repair) == Pad(n, 3) + "-repair" && InvocationDirectory(n, Extract) == Pad(n, 3) + "-extract"
    ensures EpochName(n) == "epoch_" + Pad(n, 20) + ".json"
  {
  }

  // ---------------------------------------------------------------- epoch records

  const UINT64_MAX := 0xFFFF_FFFF_FFFF_FFFF

  function EpochName(epoch: nat): string { "epoch_" + Pad(epoch, 20) + ".json" }

  lemma TwentyDigitsHold()
    ensures UINT64_MAX < Pow10(20)
  {
    assert Pow10(5) == 100_000;
    assert Pow10(10) == 10_000_000_000;
    assert Pow10(15) == 1_000_000_000_000_000;
  }

  lemma {:induction false} LessBeforeSuffix(a: string, b: string, suffix: string)
    requires |a| == |b|
    ensures Less(a + suffix, b + suffix) <==> Less(a, b)
  {
    if a == "" {
      LessIrreflexive(suffix);
      assert a + suffix == suffix && b + suffix == suffix;
    } else {
      assert (a + suffix)[1..] == a[1..] + suffix && (b + suffix)[1..] == b[1..] + suffix;
      LessBeforeSuffix(a[1..], b[1..], suffix);
    }
  }

  /** For every uint64, the names of the epoch records sort bytewise as their epochs do, so two
      epochs never share a record. */
  lemma EpochNamesAreOrdered(m: nat, n: nat)
    requires m <= UINT64_MAX && n <= UINT64_MAX
    ensures Less(EpochName(m), EpochName(n)) <==> m < n
    ensures EpochName(m) == EpochName(n) <==> m == n
  {
    TwentyDigitsHold();
    PaddedOrder(m, n, 20);
    PaddedOrder(n, m, 20);
    LessBeforeSuffix(Pad(m, 20), Pad(n, 20), ".json");
    LessBeforeSuffix(Pad(n, 20), Pad(m, 20), ".json");
    LessSamePrefix("epoch_", Pad(m, 20) + ".json", Pad(n, 20) + ".json");
    LessSamePrefix("epoch_", Pad(n, 20) + ".json", Pad(m, 20) + ".json");
    Associates("epoch_", Pad(m, 20), ".json");
    Associates("epoch_", Pad(n, 20), ".json");
    LessIrreflexive(EpochName(m));
  }
}
