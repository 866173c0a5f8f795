/** The canonical order and numbering of findings, and the preimage of their fingerprints. */
module Findings {
  import opened Prelude
  import opened Ordering
  import opened Sorting
  import opened Decimal
  import opened Paths
  import Bundle

  datatype Severity = Info | Low | Medium | High | Critical | Blocker {
    function Rank(): int {
      match this case Info => 0 case Low => 1 case Medium => 2 case High => 3 case Critical => 4 case Blocker => 5
    }
  }

  datatype Finding = Finding(
    id: string, fingerprint: string, severity: Severity, path: string, lineStart: int, role: string, provider: string,
    title: string, description: string, recommendation: string, confidence: string, lifecycle: string,
    evidenceState: string, rule: string, region: string)
  {
    function Cleared(): Finding { this.(id := "") }
  }

  /** Text normalization, the digest and the closed string sets are parameters. */
  datatype Rules = Rules(
    blank: string -> bool, normalize: string -> string, digest: Bytes -> string, role: string -> bool,
    confidence: string -> bool, lifecycle: string -> bool, evidenceState: string -> bool)

  /** fingerprint: three length-prefixed texts. */
  function FingerprintInput(rule: string, path: string, region: string): Bytes {
    Bundle.FramedBodies([Ascii(rule), Ascii(path), Ascii(region)])
  }

  predicate NormalizedPath(path: string) {
    ValidPath(path) && '\r' !in path && '\n' !in path
  }

  /** Finding.Validate; the identifier plays no part. */
  predicate Valid(rules: Rules, finding: Finding) {
    && NormalizedPath(finding.path) && finding.lineStart >= 1 && rules.role(finding.role)
    && !rules.blank(finding.provider) && !rules.blank(finding.title) && !rules.blank(finding.description)
    && !rules.blank(finding.recommendation)
    && rules.confidence(finding.confidence) && rules.lifecycle(finding.lifecycle) && rules.evidenceState(finding.evidenceState)
    && finding.rule != "" && finding.rule == rules.normalize(finding.rule)
    && finding.region != "" && finding.region == rules.normalize(finding.region)
    && finding.fingerprint == rules.digest(FingerprintInput(finding.rule, finding.path, finding.region))
  }

  // ---------------------------------------------------------------- the comparator

  function ByText(a: string, b: string, otherwise: bool): bool { if a != b then Less(a, b) else otherwise }

  function ByNumber(a: int, b: int, otherwise: bool): bool { if a != b then a < b else otherwise }

  /** Most severe first, then thirteen further keys. */
  predicate Before(a: Finding, b: Finding) {
    ByNumber(b.severity.Rank(), a.severity.Rank(),
      ByText(a.path, b.path,
        ByNumber(a.lineStart, b.lineStart,
          ByText(a.role, b.role,
            ByText(a.provider, b.provider,
              ByText(a.title, b.title,
                ByText(a.fingerprint, b.fingerprint,
                  ByText(a.rule, b.rule,
                    ByText(a.region, b.region,
                      ByText(a.confidence, b.confidence,
                        ByText(a.lifecycle, b.lifecycle,
                          ByText(a.evidenceState, b.evidenceState,
                            ByText(a.description, b.description,
                              Less(a.recommendation, b.recommendation))))))))))))))
  }

  datatype Key = Number(n: int) | Text(t: string)

  datatype Keys = End | Then(key: Key, rest: Keys)

  predicate KeyLess(a: Key, b: Key) {
    match (a, b)
    case (Number(m), Number(n)) => m < n
    case (Text(s), Text(t)) => Less(s, t)
    case (Number(_), Text(_)) => true
    case _ => false
  }

  predicate Lexicographic(a: Keys, b: Keys) {
    match (a, b)
    case (Then(x, xs), Then(y, ys)) => if x != y then KeyLess(x, y) else Lexicographic(xs, ys)
    case (End, Then(_, _)) => true
    case _ => false
  }

  function LastKeys(f: Finding): Keys {
    Then(Text(f.region), Then(Text(f.confidence), Then(Text(f.lifecycle), Then(Text(f.evidenceState),
      Then(Text(f.description), Then(Text(f.recommendation), End))))))
  }

  function MiddleKeys(f: Finding): Keys {
    Then(Text(f.provider), Then(Text(f.title), Then(Text(f.fingerprint), Then(Text(f.rule), LastKeys(f)))))
  }

  function KeysOf(f: Finding): Keys {
    Then(Number(-f.severity.Rank()), Then(Text(f.path), Then(Number(f.lineStart), Then(Text(f.role), MiddleKeys(f)))))
  }

  lemma KeyTotal(a: Key, b: Key)
    ensures a == b || KeyLess(a, b) || KeyLess(b, a)
    ensures !(KeyLess(a, b) && KeyLess(b, a)) && !KeyLess(a, a)
  {
    KeyIrreflexive(a);
    if a.Text? && b.Text? {
      LessTotal(a.t, b.t);
      if Less(a.t, b.t) { LessAsymmetric(a.t, b.t); }
    }
  }

  lemma KeyIrreflexive(a: Key)
    ensures !KeyLess(a, a)
  {
    if a.Text? { LessIrreflexive(a.t); }
  }

  lemma KeyTransitive(a: Key, b: Key, c: Key)
    requires KeyLess(a, b) && KeyLess(b, c)
    ensures KeyLess(a, c)
  {
    if a.Text? && b.Text? && c.Text? { LessTransitive(a.t, b.t, c.t); }
  }

  lemma {:induction false} LexicographicTotal(a: Keys, b: Keys)
    ensures a == b || Lexicographic(a, b) || Lexicographic(b, a)
    ensures !Lexicographic(a, a)
  {
    if a.Then? { LexicographicTotal(a.rest, if b.Then? then b.rest else a.rest); }
    if a.Then? && b.Then? { KeyTotal(a.key, b.key); }
  }

  lemma {:induction false} LexicographicTransitive(a: Keys, b: Keys, c: Keys)
    requires Lexicographic(a, b) && Lexicographic(b, c)
    ensures Lexicographic(a, c)
  {
    if a.Then? && b.Then? && c.Then? {
      KeyTotal(a.key, b.key);
      if a.key == b.key == c.key {
        LexicographicTransitive(a.rest, b.rest, c.rest);
      } else if a.key != b.key && b.key != c.key {
        KeyTransitive(a.key, b.key, c.key);
        KeyTotal(b.key, c.key);
      }
    }
  }

  lemma TextKey(a: string, b: string, x: Keys, y: Keys)
    ensures Lexicographic(Then(Text(a), x), Then(Text(b), y)) == ByText(a, b, Lexicographic(x, y))
  {
  }

  lemma NumberKey(a: int, b: int, x: Keys, y: Keys)
    ensures Lexicographic(Then(Number(a), x), Then(Number(b), y)) == ByNumber(a, b, Lexicographic(x, y))
  {
  }

  lemma LastIsLexicographic(a: Finding, b: Finding)
    ensures Lexicographic(LastKeys(a), LastKeys(b))
         == ByText(a.region, b.region, ByText(a.confidence, b.confidence, ByText(a.lifecycle, b.lifecycle,
              ByText(a.evidenceState, b.evidenceState, ByText(a.description, b.description,
                Less(a.recommendation, b.recommendation))))))
  {
    var r, s := Then(Text(a.recommendation), End), Then(Text(b.recommendation), End);
    TextKey(a.recommendation, b.recommendation, End, End);
    LessIrreflexive(a.recommendation);
    var d, e := Then(Text(a.description), r), Then(Text(b.description), s);
    TextKey(a.description, b.description, r, s);
    var v, w := Then(Text(a.evidenceState), d), Then(Text(b.evidenceState), e);
    TextKey(a.evidenceState, b.evidenceState, d, e);
    var l, m := Then(Text(a.lifecycle), v), Then(Text(b.lifecycle), w);
    TextKey(a.lifecycle, b.lifecycle, v, w);
    TextKey(a.confidence, b.confidence, l, m);
    TextKey(a.region, b.region, Then(Text(a.confidence), l), Then(Text(b.confidence), m));
  }

  lemma MiddleIsLexicographic(a: Finding, b: Finding)
    ensures Lexicographic(MiddleKeys(a), MiddleKeys(b))
         == ByText(a.provider, b.provider, ByText(a.title, b.title, ByText(a.fingerprint, b.fingerprint,
              ByText(a.rule, b.rule, Lexicographic(LastKeys(a), LastKeys(b))))))
  {
    var r, s := Then(Text(a.rule), LastKeys(a)), Then(Text(b.rule), LastKeys(b));
    TextKey(a.rule, b.rule, LastKeys(a), LastKeys(b));
    var f, g := Then(Text(a.fingerprint), r), Then(Text(b.fingerprint), s);
    TextKey(a.fingerprint, b.fingerprint, r, s);
    TextKey(a.title, b.title, f, g);
    TextKey(a.provider, b.provider, Then(Text(a.title), f), Then(Text(b.title), g));
  }

  /** The fourteen comparisons are the lexicographic order of fourteen keys. */
  lemma BeforeIsLexicographic(a: Finding, b: Finding)
    ensures Before(a, b) <==> Lexicographic(KeysOf(a), KeysOf(b))
  {
    LastIsLexicographic(a, b);
    MiddleIsLexicographic(a, b);
    var r, s := Then(Text(a.role), MiddleKeys(a)), Then(Text(b.role), MiddleKeys(b));
    TextKey(a.role, b.role, MiddleKeys(a), MiddleKeys(b));
    var l, m := Then(Number(a.lineStart), r), Then(Number(b.lineStart), s);
    NumberKey(a.lineStart, b.lineStart, r, s);
    TextKey(a.path, b.path, l, m);
    NumberKey(-a.severity.Rank(), -b.severity.Rank(), Then(Text(a.path), l), Then(Text(b.path), m));
  }

  lemma KeysBindContent(a: Finding, b: Finding)
    requires KeysOf(a) == KeysOf(b)
    ensures a.Cleared() == b.Cleared()
  {
    assert a.severity == b.severity;
  }

  ghost predicate IsBefore(less: (Finding, Finding) -> bool) {
    forall a, b :: less(a, b) <==> Before(a, b)
  }

  lemma BeforeIsStrictWeak(less: (Finding, Finding) -> bool)
    requires IsBefore(less)
    ensures StrictWeakOrder(less)
  {
    forall a: Finding ensures !less(a, a) {
      BeforeIsLexicographic(a, a);
      LexicographicTotal(KeysOf(a), KeysOf(a));
    }
    forall a, b, c | less(a, b) && less(b, c) ensures less(a, c) { BeforeTransitive(a, b, c); }
    forall a, b, c | !less(a, b) && !less(b, c) ensures !less(a, c) { NotBeforeTransitive(a, b, c); }
  }

  lemma BeforeTransitive(a: Finding, b: Finding, c: Finding)
    requires Before(a, b) && Before(b, c)
    ensures Before(a, c)
  {
    BeforeIsLexicographic(a, b);
    BeforeIsLexicographic(b, c);
    BeforeIsLexicographic(a, c);
    LexicographicTransitive(KeysOf(a), KeysOf(b), KeysOf(c));
  }

  lemma NotBeforeTransitive(a: Finding, b: Finding, c: Finding)
    requires !Before(a, b) && !Before(b, c)
    ensures !Before(a, c)
  {
    var x, y, z := KeysOf(a), KeysOf(b), KeysOf(c);
    BeforeIsLexicographic(a, b);
    BeforeIsLexicographic(b, c);
    BeforeIsLexicographic(a, c);
    LexicographicTotal(x, y);
    LexicographicTotal(y, z);
    if Lexicographic(x, z) && Lexicographic(z, y) { LexicographicTransitive(x, z, y); }
  }

  /** Findings that the comparator ties differ at most in their identifier. */
  lemma TiesAreIdentical(a: Finding, b: Finding)
    ensures !Before(a, b) && !Before(b, a) <==> a.Cleared() == b.Cleared()
  {
    BeforeIsLexicographic(a, b);
    BeforeIsLexicographic(b, a);
    LexicographicTotal(KeysOf(a), KeysOf(b));
    if KeysOf(a) == KeysOf(b) { KeysBindContent(a, b); }
    if a.Cleared() == b.Cleared() {
      SameContentSameKeys(a, b);
      LexicographicTotal(KeysOf(a), KeysOf(a));
    }
  }

  lemma SameContentSameKeys(a: Finding, b: Finding)
    requires a.Cleared() == b.Cleared()
    ensures KeysOf(a) == KeysOf(b)
  {
    assert a == b.(id := a.id);
  }

  /** The keys after severity, path, line and role, in their order. */
  function LaterKeys(f: Finding): seq<string> {
    [f.provider, f.title, f.fingerprint, f.rule, f.region, f.confidence, f.lifecycle, f.evidenceState, f.description,
     f.recommendation]
  }

  /** Findings that agree up to a later key are ordered by it. */
  lemma LaterKeysInOrder(a: Finding, b: Finding, k: nat)
    requires a.severity == b.severity && a.path == b.path && a.lineStart == b.lineStart && a.role == b.role
    requires k < 10 && LaterKeys(a)[..k] == LaterKeys(b)[..k] && LaterKeys(a)[k] != LaterKeys(b)[k]
    ensures Before(a, b) <==> Less(LaterKeys(a)[k], LaterKeys(b)[k])
  {
    var x, y := LaterKeys(a), LaterKeys(b);
    forall i | 0 <= i < k ensures x[i] == y[i] { assert x[..k][i] == y[..k][i]; }
    assert k > 0 ==> x[0] == y[0];
    assert k > 1 ==> x[1] == y[1];
    assert k > 2 ==> x[2] == y[2];
    assert k > 3 ==> x[3] == y[3];
    assert k > 4 ==> x[4] == y[4];
    assert k > 5 ==> x[5] == y[5];
    assert k > 6 ==> x[6] == y[6];
    assert k > 7 ==> x[7] == y[7];
    assert k > 8 ==> x[8] == y[8];
  }

  /** No field of a valid finding can be replaced by one that its rules refuse, and its fingerprint not
      at all; its rule, path and region are what the fingerprint is of. */
  lemma EveryFieldIsChecked(rules: Rules, finding: Finding, text: string, number: int)
    requires Valid(rules, finding)
    ensures Valid(rules, finding.(lineStart := number)) <==> number >= 1
    ensures Valid(rules, finding.(provider := text)) <==> !rules.blank(text)
    ensures Valid(rules, finding.(title := text)) <==> !rules.blank(text)
    ensures Valid(rules, finding.(description := text)) <==> !rules.blank(text)
    ensures Valid(rules, finding.(recommendation := text)) <==> !rules.blank(text)
    ensures Valid(rules, finding.(role := text)) <==> rules.role(text)
    ensures Valid(rules, finding.(confidence := text)) <==> rules.confidence(text)
    ensures Valid(rules, finding.(lifecycle := text)) <==> rules.lifecycle(text)
    ensures Valid(rules, finding.(evidenceState := text)) <==> rules.evidenceState(text)
    ensures Valid(rules, finding.(fingerprint := text)) <==> text == finding.fingerprint
    ensures ValidPath(finding.path) && forall c :: c in finding.path ==> c != '\r' && c != '\n'
    ensures finding.rule != "" && finding.region != ""
    ensures rules.normalize(finding.rule) == finding.rule && rules.normalize(finding.region) == finding.region
    ensures finding.fingerprint == rules.digest(FingerprintInput(finding.rule, finding.path, finding.region))
  {
  }

  // ---------------------------------------------------------------- ordering and numbering

  function ClearedAll(findings: seq<Finding>): (cleared: seq<Finding>)
    ensures |cleared| == |findings|
  {
    seq(|findings|, i requires 0 <= i < |findings| => findings[i].Cleared())
  }

  function Identifier(index: nat): string { "F" + Pad(index + 1, 3) }

  /** `output` is the input in comparator order, numbered from F001. */
  ghost predicate OrderedAndAssigned(input: seq<Finding>, output: seq<Finding>) {
    && multiset(ClearedAll(output)) == multiset(ClearedAll(input))
    && (forall i, j :: 0 <= i < j < |output| ==> !Before(output[j], output[i]))
    && (forall i :: 0 <= i < |output| ==> output[i].id == Identifier(i))
  }

  method OrderAndAssignFindings(rules: Rules, input: seq<Finding>) returns (result: Result<seq<Finding>>)
    ensures result.Ok? <==> forall finding :: finding in input ==> Valid(rules, finding)
    ensures result.Ok? ==> OrderedAndAssigned(input, result.value)
  {
    var findings := input;
    for index := 0 to |findings|
      invariant |findings| == |input|
      invariant forall k :: 0 <= k < index ==> Valid(rules, input[k]) && findings[k] == input[k].Cleared()
      invariant forall k :: index <= k < |findings| ==> findings[k] == input[k]
    {
      if !Valid(rules, findings[index]) {
        assert input[index] in input;
        return Err;
      }
      findings := findings[index := findings[index].(id := "")];
    }
    assert findings == ClearedAll(input);
    var less := (a: Finding, b: Finding) => Before(a, b);
    BeforeIsStrictWeak(less);
    var sorted := SortSlice(findings, less);
    SameMembers(sorted, findings);
    ClearedStay(input, sorted);
    findings := sorted;
    for index := 0 to |findings|
      invariant |findings| == |sorted|
      invariant forall k :: 0 <= k < index ==> findings[k] == sorted[k].(id := Identifier(k))
      invariant forall k :: index <= k < |findings| ==> findings[k] == sorted[k]
    {
      findings := findings[index := findings[index].(id := "F" + Pad(index + 1, 3))];
    }
    assert ClearedAll(findings) == sorted;
    forall i, j | 0 <= i < j < |findings| ensures !Before(findings[j], findings[i]) {
      assert !less(sorted[j], sorted[i]);
      IdentifierDoesNotMatter(findings[j], findings[i], sorted[j], sorted[i]);
    }
    result := Ok(findings);
  }

  lemma ClearedStay(input: seq<Finding>, sorted: seq<Finding>)
    requires multiset(sorted) == multiset(ClearedAll(input))
    ensures forall i :: 0 <= i < |sorted| ==> sorted[i].Cleared() == sorted[i]
  {
    SameMembers(sorted, ClearedAll(input));
    forall i | 0 <= i < |sorted| ensures sorted[i].Cleared() == sorted[i] {
      assert sorted[i] in sorted;
      var k :| 0 <= k < |input| && ClearedAll(input)[k] == sorted[i];
    }
  }

  lemma IdentifierDoesNotMatter(a: Finding, b: Finding, c: Finding, d: Finding)
    requires a.Cleared() == c.Cleared() && b.Cleared() == d.Cleared()
    ensures Before(a, b) <==> Before(c, d)
  {
    SameContentSameKeys(a, c);
    SameContentSameKeys(b, d);
    BeforeIsLexicographic(a, b);
    BeforeIsLexicographic(c, d);
  }

  lemma ClearedAreSorted(output: seq<Finding>, less: (Finding, Finding) -> bool)
    requires IsBefore(less) && forall i, j :: 0 <= i < j < |output| ==> !Before(output[j], output[i])
    ensures Sorted(ClearedAll(output), less) && TiesAreEqual(ClearedAll(output), less)
  {
    var cleared := ClearedAll(output);
    forall i, j | 0 <= i < j < |cleared| ensures !less(cleared[j], cleared[i]) {
      IdentifierDoesNotMatter(output[j], output[i], cleared[j], cleared[i]);
    }
    forall x, y | x in cleared && y in cleared && !less(x, y) && !less(y, x) ensures x == y {
      TiesAreIdentical(x, y);
      var i :| 0 <= i < |cleared| && cleared[i] == x;
      var j :| 0 <= j < |cleared| && cleared[j] == y;
      assert x == output[i].Cleared() && y == output[j].Cleared();
    }
  }

  /** Inputs with the same contents, in whatever order and however numbered, have one output: the
      unstable sort leaves nothing open. */
  lemma OutputIsDetermined(a: seq<Finding>, x: seq<Finding>, b: seq<Finding>, y: seq<Finding>)
    requires OrderedAndAssigned(a, x) && OrderedAndAssigned(b, y)
    requires multiset(ClearedAll(a)) == multiset(ClearedAll(b))
    ensures x == y
  {
    var less := (a: Finding, b: Finding) => Before(a, b);
    BeforeIsStrictWeak(less);
    ClearedAreSorted(x, less);
    ClearedAreSorted(y, less);
    SortedIsUnique(ClearedAll(x), ClearedAll(y), less);
    assert |x| == |ClearedAll(x)| == |y|;
    forall i | 0 <= i < |x| ensures x[i] == y[i] {
      assert ClearedAll(x)[i] == ClearedAll(y)[i];
      assert x[i] == x[i].Cleared().(id := Identifier(i)) && y[i] == y[i].Cleared().(id := Identifier(i));
    }
  }

  /** What the order looks like: never a less severe finding before a more severe one, then by path,
      line and role. */
  lemma MostSevereFirst(input: seq<Finding>, output: seq<Finding>, i: nat, j: nat)
    requires OrderedAndAssigned(input, output) && i < j < |output|
    ensures var a, b := output[i], output[j];
            && a.severity.Rank() >= b.severity.Rank()
            && (a.severity == b.severity ==> a.path == b.path || Less(a.path, b.path))
            && (a.severity == b.severity && a.path == b.path ==> a.lineStart <= b.lineStart)
            && (a.severity == b.severity && a.path == b.path && a.lineStart == b.lineStart ==>
                  a.role == b.role || Less(a.role, b.role))
  {
    var a, b := output[i], output[j];
    assert !Before(b, a);
    LessTotal(a.path, b.path);
    LessTotal(a.role, b.role);
  }

  /** No two findings share an identifier. */
  lemma IdentifiersAreDistinct(input: seq<Finding>, output: seq<Finding>, i: nat, j: nat)
    requires OrderedAndAssigned(input, output) && i < j < |output|
    ensures output[i].id != output[j].id
  {
    if output[i].id == output[j].id {
      assert output[i].id[1..] == Pad(i + 1, 3) && output[j].id[1..] == Pad(j + 1, 3);
      PadInjective(i + 1, j + 1, 3);
    }
  }

  /** Ordering again changes nothing. */
  lemma OrderingIsIdempotent(rules: Rules, input: seq<Finding>, output: seq<Finding>, again: seq<Finding>)
    requires OrderedAndAssigned(input, output) && OrderedAndAssigned(output, again)
    ensures again == output
  {
    OutputIsDetermined(output, again, input, output);
  }

  lemma ValidityIgnoresIdentifier(rules: Rules, input: seq<Finding>, output: seq<Finding>)
    requires OrderedAndAssigned(input, output) && forall finding :: finding in input ==> Valid(rules, finding)
    ensures forall finding :: finding in output ==> Valid(rules, finding)
  {
    SameMembers(ClearedAll(output), ClearedAll(input));
    forall finding | finding in output ensures Valid(rules, finding) {
      var i :| 0 <= i < |output| && output[i] == finding;
      assert ClearedAll(output)[i] in ClearedAll(output);
      var k :| 0 <= k < |input| && ClearedAll(input)[k] == ClearedAll(output)[i];
      assert input[k] in input;
      assert finding == input[k].(id := finding.id);
    }
  }

  // ---------------------------------------------------------------- the fingerprint preimage

  lemma {:induction false} FramesBind(a: seq<Bytes>, b: seq<Bytes>)
    requires |a| == |b| && Bundle.FramedBodies(a) == Bundle.FramedBodies(b)
    requires forall i :: 0 <= i < |a| ==> |a[i]| <= Bundle.INT64_MAX && |b[i]| <= Bundle.INT64_MAX
    ensures a == b
  {
    if a != [] {
      Bundle.ReadsFramed(a[0], Bundle.FramedBodies(a[1..]));
      Bundle.ReadsFramed(b[0], Bundle.FramedBodies(b[1..]));
      FramesBind(a[1..], b[1..]);
      assert a == [a[0]] + a[1..] && b == [b[0]] + b[1..];
    }
  }

  predicate IsByteText(text: string) {
    |text| <= Bundle.INT64_MAX && forall i :: 0 <= i < |text| ==> text[i] as int < 0x100
  }

  lemma BytesBindText(a: string, b: string)
    requires IsByteText(a) && IsByteText(b)
    ensures Ascii(a) == Ascii(b) <==> a == b
  {
    if Ascii(a) == Ascii(b) {
      forall i | 0 <= i < |a| ensures a[i] == b[i] {
        assert Ascii(a)[i] == Ascii(b)[i];
        assert a[i] as int == Ascii(a)[i] as int && b[i] as int == Ascii(b)[i] as int;
      }
    }
  }

  /** Two findings feed the same bytes to the digest only when rule, path and region agree: the
      length prefixes leave no room for shifting text from one to the next. */
  lemma FingerprintInputBinds(rule: string, path: string, region: string, rule': string, path': string, region': string)
    requires IsByteText(rule) && IsByteText(path) && IsByteText(region)
    requires IsByteText(rule') && IsByteText(path') && IsByteText(region')
    ensures FingerprintInput(rule, path, region) == FingerprintInput(rule', path', region')
       <==> rule == rule' && path == path' && region == region'
  {
    var a, b := [Ascii(rule), Ascii(path), Ascii(region)], [Ascii(rule'), Ascii(path'), Ascii(region')];
    if Bundle.FramedBodies(a) == Bundle.FramedBodies(b) {
      FramesBind(a, b);
      assert a[0] == b[0] && a[1] == b[1] && a[2] == b[2];
      BytesBindText(rule, rule');
      BytesBindText(path, path');
      BytesBindText(region, region');
    }
  }

  /** `n >> (8 * bytes)` */
  function ShiftedRight(n: nat, bytes: nat): nat {
    if bytes == 0 then n else ShiftedRight(n, bytes - 1) / 0x100
  }

  /** The bytes that fingerprint feeds to the digest: each text after its length, the length from its
      highest byte down. */
  method WriteFingerprintInput(rule: string, path: string, region: string) returns (written: Bytes)
    ensures written == FingerprintInput(rule, path, region)
  {
    var values := [Ascii(rule), Ascii(path), Ascii(region)];
    written := [];
    for i := 0 to |values|
      invariant written == Bundle.FramedBodies(values[..i])
    {
      var prefix := WriteLength(|values[i]|);
      NextFrame(values, i);
      written := written + (prefix + values[i]);
    }
    assert values[..|values|] == values;
  }

  method WriteLength(length: nat) returns (written: Bytes)
    ensures written == Bundle.BigEndian(length, 8)
  {
    written := [];
    var left := 8;
    while left > 0
      invariant 0 <= left <= 8 && written == Bundle.BigEndian(ShiftedRight(length, left), 8 - left)
    {
      left := left - 1;
      written := written + [(ShiftedRight(length, left) % 0x100) as byte];
    }
  }

  lemma NextFrame(values: seq<Bytes>, i: nat)
    requires i < |values|
    ensures Bundle.FramedBodies(values[..i + 1]) == Bundle.FramedBodies(values[..i]) + Bundle.Framed(values[i])
  {
    assert values[..i + 1] == values[..i] + [values[i]];
    FramesConcatenate(values[..i], values[i]);
  }

  lemma {:induction false} FramesConcatenate(front: seq<Bytes>, last: Bytes)
    ensures Bundle.FramedBodies(front + [last]) == Bundle.FramedBodies(front) + Bundle.Framed(last)
  {
    if front == [] {
      assert (front + [last])[1..] == [];
      assert Bundle.Framed(last) + [] == Bundle.Framed(last);
    } else {
      assert (front + [last])[1..] == front[1..] + [last];
      FramesConcatenate(front[1..], last);
      Associates(Bundle.Framed(front[0]), Bundle.FramedBodies(front[1..]), Bundle.Framed(last));
    }
  }
}
