/** The fingerprint of a composition: one root run and, per role, the run and attempt it takes its
    result from.  The digest itself is not modelled; everything is stated on its preimage. */
module Composition {
  import opened Prelude
  import opened Sorting
  import opened Decimal
  import opened Paths
  import opened Runs

  datatype Source = Source(role: Role, runID: string, reviewID: string, attemptID: string) {
    predicate Valid() { runID != "" && reviewID != "" && attemptID != "" }
  }

  function RoleName(role: Role): string {
    match role
    case Logic => "logic" case Security => "security" case Maintainability => "maintainability"
    case Product => "product" case Documentation => "documentation" case Testing => "testing" case Artist => "artist"
  }

  // ---------------------------------------------------------------- self-delimiting fields

  /** writeCompositionField */
  function Field(value: string): string {
    Frame(value) + "|"
  }

  function Fields(values: seq<string>): string {
    if values == [] then "" else Field(values[0]) + Fields(values[1..])
  }

  /** A field ends where its length says, whatever follows it. */
  lemma FieldDelimits(a: string, x: string, b: string, y: string)
    requires Field(a) + x == Field(b) + y
    ensures a == b && x == y
  {
    assert Field(a) + x == Frame(a) + ("|" + x) && Field(b) + y == Frame(b) + ("|" + y);
    FrameDelimits(a, "|" + x, b, "|" + y);
    assert ("|" + x)[1..] == x && ("|" + y)[1..] == y;
  }

  lemma {:induction false} FieldsInjective(a: seq<string>, b: seq<string>)
    requires Fields(a) == Fields(b)
    ensures a == b
  {
    if a != [] && b != [] {
      FieldDelimits(a[0], Fields(a[1..]), b[0], Fields(b[1..]));
      FieldsInjective(a[1..], b[1..]);
      assert a == [a[0]] + a[1..] && b == [b[0]] + b[1..];
    }
  }

  // ---------------------------------------------------------------- the preimage

  const VERSION_1 := "mulgae-review-composition-v1\0"
  const VERSION_2 := "mulgae-review-composition-v2\0"

  function SourceFields(sources: seq<Source>): seq<string> {
    if sources == [] then []
    else [RoleName(sources[0].role), sources[0].runID, sources[0].attemptID] + SourceFields(sources[1..])
  }

  function Preimage(root: string, recovery: string, ordered: seq<Source>): string {
    (if recovery == "" then VERSION_1 else VERSION_2)
    + Fields([root] + (if recovery == "" then [] else [recovery]) + SourceFields(ordered))
  }

  ghost predicate DistinctRoles(sources: seq<Source>) {
    forall i, j :: 0 <= i < j < |sources| ==> sources[i].role != sources[j].role
  }

  ghost predicate Accepted(root: string, sources: seq<Source>) {
    && root != "" && 0 < |sources| <= |FIXED_ORDER|
    && (forall source :: source in sources ==> source.Valid())
    && DistinctRoles(sources)
  }

  ghost predicate InRoleOrder(sources: seq<Source>) {
    forall i, j :: 0 <= i < j < |sources| ==> sources[i].role.Position() < sources[j].role.Position()
  }

  lemma PositionInjective(a: Role, b: Role)
    ensures a.Position() == b.Position() ==> a == b
  {
  }

  lemma RoleNameInjective(a: Role, b: Role)
    requires RoleName(a) == RoleName(b)
    ensures a == b
  {
    assert |RoleName(a)| == |RoleName(b)| && RoleName(a)[0] == RoleName(b)[0];
  }

  method SortByRole(sources: seq<Source>) returns (ordered: seq<Source>)
    ensures multiset(ordered) == multiset(sources)
    ensures DistinctRoles(sources) <==> InRoleOrder(ordered)
  {
    ordered := SortSlice(sources, (a: Source, b: Source) => a.role.Position() < b.role.Position());
    RolesPermute(sources, ordered);
    RolesPermute(ordered, sources);
    if DistinctRoles(sources) {
      forall i, j | 0 <= i < j < |ordered| ensures ordered[i].role.Position() < ordered[j].role.Position() {
        PositionInjective(ordered[i].role, ordered[j].role);
      }
    }
  }

  lemma RolesPermute(a: seq<Source>, b: seq<Source>)
    requires multiset(a) == multiset(b)
    ensures DistinctRoles(a) ==> DistinctRoles(b)
  {
    if DistinctRoles(a) {
      var name := (source: Source) => RoleName(source.role);
      forall i, j | 0 <= i < j < |a| ensures name(a[i]) != name(a[j]) {
        if name(a[i]) == name(a[j]) { RoleNameInjective(a[i].role, a[j].role); }
      }
      DistinctKeysPermute(a, b, name);
      forall i, j | 0 <= i < j < |b| ensures b[i].role != b[j].role { assert name(b[i]) != name(b[j]); }
    }
  }

  /** The preimage of some arrangement of the sources by role. */
  ghost predicate Denotes(root: string, recovery: string, sources: seq<Source>, preimage: string) {
    exists ordered :: multiset(ordered) == multiset(sources) && InRoleOrder(ordered) && preimage == Preimage(root, recovery, ordered)
  }

  /** compositionFingerprint, up to the digest: accepts exactly a root with one to seven complete
      sources of different roles. */
  method FingerprintInput(root: string, recovery: string, sources: seq<Source>) returns (input: Result<string>)
    ensures input.Ok? <==> Accepted(root, sources)
    ensures input.Ok? ==> Denotes(root, recovery, sources, input.value)
  {
    if root == "" || |sources| == 0 || |sources| > |FIXED_ORDER| { return Err; }
    var ordered := SortByRole(sources);
    SameMembers(sources, ordered);
    var header := if recovery == "" then VERSION_1 else VERSION_2;
    ghost var front := [root] + (if recovery == "" then [] else [recovery]);
    FieldsOfFront(root, recovery);
    var builder := Field(root) + if recovery != "" then Field(recovery) else "";
    var written := WriteSources(builder, ordered, SourceText);
    RolesPermute(ordered, sources);
    if written.Err? {
      ghost var i :| 0 <= i < |ordered| && !Admissible(ordered, i);
      assert ordered[i] in sources by { assert ordered[i] in ordered; }
      if ordered[i].Valid() { SeenTwice(ordered, i); }
      return Err;
    }
    SeenNever(ordered);
    forall source | source in sources ensures source.Valid() {
      var i :| 0 <= i < |ordered| && ordered[i] == source;
      assert Admissible(ordered, i);
    }
    WrittenAreFields(front, ordered);
    input := Ok(header + written.value);
  }

  /** The roles of the first n sources. */
  ghost function SeenRoles(sources: seq<Source>, n: nat): set<Role>
    requires n <= |sources|
  {
    if n == 0 then {} else SeenRoles(sources, n - 1) + {sources[n - 1].role}
  }

  lemma {:induction false} SeenBefore(sources: seq<Source>, n: nat, role: Role)
    requires n <= |sources|
    ensures role in SeenRoles(sources, n) <==> exists k :: 0 <= k < n && sources[k].role == role
  {
    if n > 0 { SeenBefore(sources, n - 1, role); }
  }

  lemma SeenTwice(sources: seq<Source>, i: nat)
    requires i < |sources| && sources[i].role in SeenRoles(sources, i)
    ensures !DistinctRoles(sources) && !InRoleOrder(sources)
  {
    SeenBefore(sources, i, sources[i].role);
  }

  /** The source is complete and its role is new. */
  ghost predicate Admissible(sources: seq<Source>, i: nat)
    requires i < |sources|
  {
    sources[i].Valid() && sources[i].role !in SeenRoles(sources, i)
  }

  lemma SeenNever(sources: seq<Source>)
    requires forall i :: 0 <= i < |sources| ==> Admissible(sources, i)
    ensures DistinctRoles(sources)
  {
    forall i, j | 0 <= i < j < |sources| ensures sources[i].role != sources[j].role {
      assert Admissible(sources, j);
      SeenBefore(sources, j, sources[j].role);
    }
  }

  function SourceText(source: Source): string {
    Field(RoleName(source.role)) + Field(source.runID) + Field(source.attemptID)
  }

  /** The texts of the first n sources, one after the other. */
  function Written(sources: seq<Source>, write: Source -> string, n: nat): string
    requires n <= |sources|
  {
    if n == 0 then "" else Written(sources, write, n - 1) + write(sources[n - 1])
  }

  lemma WritesOn(start: string, sources: seq<Source>, write: Source -> string, i: nat)
    requires i < |sources|
    ensures start + Written(sources, write, i) + write(sources[i]) == start + Written(sources, write, i + 1)
  {
    Associates(start, Written(sources, write, i), write(sources[i]));
  }

  /** Texts that each continue the one before by one source are what has been written so far. */
  lemma {:induction false} WrittenAccumulates(sources: seq<Source>, write: Source -> string, texts: seq<string>, n: nat)
    requires n <= |sources| && |texts| == |sources| + 1
    requires forall k :: 0 <= k < |sources| ==> texts[k + 1] == texts[k] + write(sources[k])
    ensures texts[0] + Written(sources, write, n) == texts[n]
  {
    if n == 0 {
      assert texts[0] + "" == texts[0];
    } else {
      WrittenAccumulates(sources, write, texts, n - 1);
      WritesOn(texts[0], sources, write, n - 1);
      assert texts[n - 1 + 1] == texts[n - 1] + write(sources[n - 1]);
    }
  }

  lemma WrittenAreFields(front: seq<string>, sources: seq<Source>)
    ensures Fields(front) + Written(sources, SourceText, |sources|) == Fields(front + SourceFields(sources))
  {
    var texts := seq(|sources| + 1, k requires 0 <= k <= |sources| => Fields(front + SourceFields(sources[..k])));
    forall k | 0 <= k < |sources| ensures texts[k + 1] == texts[k] + SourceText(sources[k]) {
      NextSource(front, sources, k);
    }
    WrittenAccumulates(sources, SourceText, texts, |sources|);
    assert front + SourceFields(sources[..0]) == front;
    assert sources[..|sources|] == sources;
  }

  /** The loop over the ordered sources; `write` writes the fields of one. */
  method WriteSources(start: string, ordered: seq<Source>, write: Source -> string) returns (builder: Result<string>)
    ensures builder.Ok? ==> builder.value == start + Written(ordered, write, |ordered|)
                            && forall i :: 0 <= i < |ordered| ==> Admissible(ordered, i)
    ensures builder.Err? ==> exists i :: 0 <= i < |ordered| && !Admissible(ordered, i)
  {
    var text := start;
    var seen: set<Role> := {};
    for i := 0 to |ordered|
      invariant text == start + Written(ordered, write, i)
      invariant seen == SeenRoles(ordered, i)
      invariant forall k :: 0 <= k < i ==> Admissible(ordered, k)
    {
      var source := ordered[i];
      if !source.Valid() || source.role in seen {
        assert !Admissible(ordered, i);
        return Err;
      }
      seen := seen + {source.role};
      WritesOn(start, ordered, write, i);
      text := text + write(source);
    }
    builder := Ok(text);
  }

  lemma {:induction false} FieldsConcatenation(a: seq<string>, b: seq<string>)
    ensures Fields(a + b) == Fields(a) + Fields(b)
  {
    if a == [] {
      assert a + b == b;
    } else {
      assert (a + b)[1..] == a[1..] + b;
      FieldsConcatenation(a[1..], b);
    }
  }

  lemma FieldsOfOne(value: string)
    ensures Fields([value]) == Field(value)
  {
    assert [value][1..] == [] && Field(value) + "" == Field(value);
  }

  lemma FieldsOfFront(root: string, recovery: string)
    ensures Fields([root] + if recovery == "" then [] else [recovery])
         == Field(root) + if recovery == "" then "" else Field(recovery)
  {
    FieldsOfOne(root);
    FieldsOfOne(recovery);
    FieldsConcatenation([root], [recovery]);
    assert [root] + [] == [root];
    assert Field(root) + "" == Field(root);
  }

  lemma {:induction false} SourceFieldsConcatenation(a: seq<Source>, b: seq<Source>)
    ensures SourceFields(a + b) == SourceFields(a) + SourceFields(b)
  {
    if a == [] {
      assert a + b == b;
    } else {
      assert (a + b)[1..] == a[1..] + b;
      SourceFieldsConcatenation(a[1..], b);
    }
  }

  lemma NextSource(fields: seq<string>, ordered: seq<Source>, i: nat)
    requires i < |ordered|
    ensures Fields(fields + SourceFields(ordered[..i + 1])) == Fields(fields + SourceFields(ordered[..i])) + SourceText(ordered[i])
  {
    var source := ordered[i];
    var added := [RoleName(source.role), source.runID, source.attemptID];
    assert ordered[..i + 1] == ordered[..i] + [source];
    SourceFieldsConcatenation(ordered[..i], [source]);
    assert SourceFields([source]) == added by { assert [source][1..] == [] && added + [] == added; }
    assert fields + SourceFields(ordered[..i + 1]) == fields + SourceFields(ordered[..i]) + added;
    FieldsConcatenation(fields + SourceFields(ordered[..i]), added);
    ThreeFields(added[0], added[1], added[2]);
  }

  lemma ThreeFields(a: string, b: string, c: string)
    ensures Fields([a, b, c]) == Field(a) + Field(b) + Field(c)
  {
    assert [a, b, c] == [a] + [b] + [c];
    FieldsConcatenation([a] + [b], [c]);
    FieldsConcatenation([a], [b]);
    FieldsOfOne(a);
    FieldsOfOne(b);
    FieldsOfOne(c);
  }

  // ---------------------------------------------------------------- what the preimage binds

  /** Which run and attempt each role takes its result from. */
  ghost function Mapping(sources: seq<Source>): map<Role, (string, string)> {
    if sources == [] then map[]
    else Mapping(sources[1..])[sources[0].role := (sources[0].runID, sources[0].attemptID)]
  }

  lemma {:induction false} MappedRole(sources: seq<Source>, role: Role)
    ensures role in Mapping(sources) <==> exists i :: 0 <= i < |sources| && sources[i].role == role
  {
    if sources != [] {
      MappedRole(sources[1..], role);
      if exists i :: 0 <= i < |sources[1..]| && sources[1..][i].role == role {
        var i :| 0 <= i < |sources[1..]| && sources[1..][i].role == role;
        assert sources[i + 1].role == role;
      }
      if exists i :: 1 <= i < |sources| && sources[i].role == role {
        var i :| 1 <= i < |sources| && sources[i].role == role;
        assert sources[1..][i - 1].role == role;
      }
    }
  }

  lemma {:induction false} MappedSource(sources: seq<Source>, i: nat)
    requires DistinctRoles(sources) && i < |sources|
    ensures sources[i].role in Mapping(sources)
    ensures Mapping(sources)[sources[i].role] == (sources[i].runID, sources[i].attemptID)
  {
    if i > 0 {
      MappedSource(sources[1..], i - 1);
      assert sources[0].role != sources[i].role;
    }
  }

  /** One source's entry, wherever the source stands in another arrangement. */
  lemma MappedElsewhere(a: seq<Source>, b: seq<Source>, i: nat)
    requires multiset(a) == multiset(b) && DistinctRoles(a) && DistinctRoles(b) && i < |a|
    ensures a[i].role in Mapping(a) && a[i].role in Mapping(b) && Mapping(a)[a[i].role] == Mapping(b)[a[i].role]
  {
    SameMembers(a, b);
    assert a[i] in a;
    var j :| 0 <= j < |b| && b[j] == a[i];
    MappedSource(a, i);
    MappedSource(b, j);
  }

  lemma MappingExtends(a: seq<Source>, b: seq<Source>, role: Role)
    requires multiset(a) == multiset(b) && DistinctRoles(a) && DistinctRoles(b) && role in Mapping(a)
    ensures role in Mapping(b) && Mapping(a)[role] == Mapping(b)[role]
  {
    MappedRole(a, role);
    var i :| 0 <= i < |a| && a[i].role == role;
    MappedElsewhere(a, b, i);
  }

  lemma MappingIgnoresOrder(a: seq<Source>, b: seq<Source>)
    requires multiset(a) == multiset(b) && DistinctRoles(a)
    ensures Mapping(a) == Mapping(b)
  {
    RolesPermute(a, b);
    forall role | role in Mapping(a) ensures role in Mapping(b) && Mapping(a)[role] == Mapping(b)[role] {
      MappingExtends(a, b, role);
    }
    forall role | role in Mapping(b) ensures role in Mapping(a) { MappingExtends(b, a, role); }
  }

  /** Sources that differ at most in their review identifiers. */
  ghost predicate SameCoordinates(a: seq<Source>, b: seq<Source>) {
    |a| == |b| && forall i :: 0 <= i < |a| ==>
      a[i].role == b[i].role && a[i].runID == b[i].runID && a[i].attemptID == b[i].attemptID
  }

  lemma {:induction false} SourceFieldsBind(a: seq<Source>, b: seq<Source>)
    ensures SourceFields(a) == SourceFields(b) <==> SameCoordinates(a, b)
  {
    if a != [] && b != [] {
      var x, y := SourceFields(a), SourceFields(b);
      SourceFieldsBind(a[1..], b[1..]);
      ConsCoordinates(a, b);
      assert x[3..] == SourceFields(a[1..]) && y[3..] == SourceFields(b[1..]);
      if x == y {
        assert x[0] == y[0] && x[1] == y[1] && x[2] == y[2];
        RoleNameInjective(a[0].role, b[0].role);
      }
    }
  }

  lemma MappingHasHead(sources: seq<Source>)
    requires InRoleOrder(sources)
    ensures sources != [] ==> Mapping(sources) != map[]
    ensures sources != [] ==>
              sources[0].role in Mapping(sources)
              && Mapping(sources)[sources[0].role] == (sources[0].runID, sources[0].attemptID)
    ensures sources != [] ==> forall role :: role in Mapping(sources) ==> sources[0].role.Position() <= role.Position()
  {
    if sources != [] {
      MappedSource(sources, 0);
      forall role | role in Mapping(sources) ensures sources[0].role.Position() <= role.Position() {
        MappedRole(sources, role);
      }
    }
  }

  lemma RestMapping(sources: seq<Source>)
    requires InRoleOrder(sources) && sources != []
    ensures Mapping(sources[1..]) == Mapping(sources) - {sources[0].role}
  {
    var rest, whole := Mapping(sources[1..]), Mapping(sources);
    MappedRole(sources[1..], sources[0].role);
    assert sources[0].role !in rest;
    assert whole == rest[sources[0].role := (sources[0].runID, sources[0].attemptID)];
  }

  lemma {:induction false} MappingBindsCoordinates(a: seq<Source>, b: seq<Source>)
    requires InRoleOrder(a) && InRoleOrder(b) && Mapping(a) == Mapping(b)
    ensures SameCoordinates(a, b)
  {
    MappingHasHead(a);
    MappingHasHead(b);
    if a != [] && b != [] {
      PositionInjective(a[0].role, b[0].role);
      RestMapping(a);
      RestMapping(b);
      MappingBindsCoordinates(a[1..], b[1..]);
      ConsCoordinates(a, b);
    }
  }

  lemma ConsCoordinates(a: seq<Source>, b: seq<Source>)
    requires a != [] && b != []
    ensures SameCoordinates(a, b) <==> SameCoordinates([a[0]], [b[0]]) && SameCoordinates(a[1..], b[1..])
  {
    if SameCoordinates([a[0]], [b[0]]) && SameCoordinates(a[1..], b[1..]) {
      assert [a[0]][0] == a[0] && [b[0]][0] == b[0];
      assert forall i :: 1 <= i < |a| ==> a[i] == a[1..][i - 1];
      assert forall i :: 1 <= i < |b| ==> b[i] == b[1..][i - 1];
    }
  }

  lemma {:induction false} CoordinatesBindMapping(a: seq<Source>, b: seq<Source>)
    requires SameCoordinates(a, b)
    ensures Mapping(a) == Mapping(b)
  {
    if a != [] { CoordinatesBindMapping(a[1..], b[1..]); }
  }

  lemma VersionsDiffer()
    ensures |VERSION_1| == |VERSION_2| && VERSION_1 != VERSION_2
  {
    assert VERSION_1[27] == '1' && VERSION_2[27] == '2';
  }

  lemma SplitAt(a: string, x: string, b: string, y: string)
    requires |a| == |b| && a + x == b + y
    ensures a == b && x == y
  {
    assert (a + x)[..|a|] == a && (b + y)[..|b|] == b;
    assert (a + x)[|a|..] == x && (b + y)[|b|..] == y;
  }

  lemma PreimageBinds(root: string, recovery: string, a: seq<Source>, root': string, recovery': string, b: seq<Source>)
    ensures Preimage(root, recovery, a) == Preimage(root', recovery', b)
       <==> root == root' && recovery == recovery' && SameCoordinates(a, b)
  {
    VersionsDiffer();
    SourceFieldsBind(a, b);
    var x := [root] + (if recovery == "" then [] else [recovery]) + SourceFields(a);
    var y := [root'] + (if recovery' == "" then [] else [recovery']) + SourceFields(b);
    if Preimage(root, recovery, a) == Preimage(root', recovery', b) {
      SplitAt(if recovery == "" then VERSION_1 else VERSION_2, Fields(x),
              if recovery' == "" then VERSION_1 else VERSION_2, Fields(y));
      FieldsInjective(x, y);
      assert x[0] == root && y[0] == root';
      if recovery == "" {
        assert x[1..] == SourceFields(a) && y[1..] == SourceFields(b);
      } else {
        assert x[1] == recovery && y[1] == recovery';
        assert x[2..] == SourceFields(a) && y[2..] == SourceFields(b);
      }
    }
  }

  // ---------------------------------------------------------------- the layout

  /** Which compositions are accepted: a root, and one to seven sources of different roles, each with a
      run, a review and an attempt. */
  lemma AcceptedMeans(root: string, sources: seq<Source>)
    ensures Accepted(root, sources) <==>
              && root != "" && 1 <= |sources| <= 7
              && (forall source :: source in sources ==> "" !in [source.runID, source.reviewID, source.attemptID])
              && forall i, j :: 0 <= i < j < |sources| ==> sources[i].role != sources[j].role
  {
    forall source | source in sources
      ensures source.Valid() <==> "" !in [source.runID, source.reviewID, source.attemptID]
    {
      var parts := [source.runID, source.reviewID, source.attemptID];
      assert parts[0] == source.runID && parts[1] == source.reviewID && parts[2] == source.attemptID;
    }
  }

  lemma FieldLayout(value: string)
    ensures Field(value) == Dec(|value|) + ":" + value + "|"
  {
  }

  /** The names that roles have in the preimage, and its role order. */
  lemma RolesInOrder(i: nat)
    requires i < 7
    ensures var roles := [Logic, Security, Maintainability, Product, Documentation, Testing, Artist];
            && roles[i].Position() == i
            && RoleName(roles[i]) == ["logic", "security", "maintainability", "product", "documentation", "testing", "artist"][i]
  {
  }

  /** The preimage begins with its version and the root, then the recovery manifest if there is one. */
  lemma PreimageBegins(root: string, recovery: string)
    ensures Preimage(root, "", []) == "mulgae-review-composition-v1\0" + Field(root)
    ensures recovery != "" ==> Preimage(root, recovery, []) == "mulgae-review-composition-v2\0" + (Field(root) + Field(recovery))
  {
    FieldsOfFront(root, "");
    FieldsOfFront(root, recovery);
    assert [root] + [] + SourceFields([]) == [root] + [];
    assert [root] + [recovery] + SourceFields([]) == [root] + [recovery];
    assert Field(root) + "" == Field(root);
  }

  /** Every further source adds its role's name, then its run, then its attempt. */
  lemma PreimageGrows(root: string, recovery: string, ordered: seq<Source>, source: Source)
    ensures Preimage(root, recovery, ordered + [source])
         == Preimage(root, recovery, ordered) + (Field(RoleName(source.role)) + Field(source.runID) + Field(source.attemptID))
  {
    var front := [root] + (if recovery == "" then [] else [recovery]);
    assert (ordered + [source])[..|ordered| + 1] == ordered + [source] && (ordered + [source])[..|ordered|] == ordered;
    NextSource(front, ordered + [source], |ordered|);
    Associates(if recovery == "" then VERSION_1 else VERSION_2, Fields(front + SourceFields(ordered)), SourceText(source));
  }

  /** Two accepted compositions have the same preimage exactly when they have the same root, the
      same recovery manifest, and take each role from the same run and attempt.  Neither the order
      of the sources nor their review identifiers matter. */
  lemma FingerprintBinds(root: string, recovery: string, a: seq<Source>, input: string,
                         root': string, recovery': string, b: seq<Source>, input': string)
    requires Accepted(root, a) && Denotes(root, recovery, a, input)
    requires Accepted(root', b) && Denotes(root', recovery', b, input')
    ensures input == input' <==> root == root' && recovery == recovery' && Mapping(a) == Mapping(b)
  {
    var x :| multiset(x) == multiset(a) && InRoleOrder(x) && input == Preimage(root, recovery, x);
    var y :| multiset(y) == multiset(b) && InRoleOrder(y) && input' == Preimage(root', recovery', y);
    MappingIgnoresOrder(a, x);
    MappingIgnoresOrder(b, y);
    if Mapping(x) == Mapping(y) { MappingBindsCoordinates(x, y); }
    if SameCoordinates(x, y) { CoordinatesBindMapping(x, y); }
    PreimageBinds(root, recovery, x, root', recovery', y);
  }

  // ---------------------------------------------------------------- the run identity of a fingerprint

  predicate IsHex(c: char) { IsLowerHex(c) || 'A' <= c <= 'F' }

  /** The half byte a hexadecimal digit of either case stands for. */
  function Nibble(c: char): (n: nat)
    requires IsHex(c)
    ensures n < 16
  {
    if c <= '9' then c as int - '0' as int
    else if c <= 'F' then c as int - 'A' as int + 10
    else c as int - 'a' as int + 10
  }

  /** `%x` of a half byte. */
  function HexDigit(n: nat): (c: char)
    requires n < 16
    ensures IsLowerHex(c) && Nibble(c) == n
  {
    if n < 10 then (n + '0' as int) as char else (n - 10 + 'a' as int) as char
  }

  predicate IsDigest(value: string) {
    |value| == 71 && HasPrefix(value, "sha256:") && forall i :: 7 <= i < 71 ==> IsHex(value[i])
  }

  /** Half byte i of the identity: the digest's own, except for the version and variant bits. */
  function IdentityNibble(value: string, i: nat): (n: nat)
    requires IsDigest(value) && i < 32
    ensures n < 16
  {
    var n := Nibble(value[7 + i]);
    if i == 12 then 7 else if i == 16 then n % 4 + 8 else n
  }

  predicate IsDash(i: nat) { i == 8 || i == 13 || i == 18 || i == 23 }

  /** Which half byte stands at a character position of the dashed text. */
  function NibbleAt(i: nat): nat
    requires i < 36 && !IsDash(i)
  {
    if i < 8 then i else if i < 13 then i - 1 else if i < 18 then i - 2 else if i < 23 then i - 3 else i - 4
  }

  function IdentityText(value: string): (text: string)
    requires IsDigest(value)
    ensures |text| == 36
  {
    seq(36, i requires 0 <= i < 36 => if IsDash(i) then '-' else HexDigit(IdentityNibble(value, NibbleAt(i))))
  }

  /** CompositionFingerprint.RunID */
  function RunIDOf(value: string): Result<string> {
    if IsDigest(value) && ValidRunID("r_" + IdentityText(value)) then Ok("r_" + IdentityText(value)) else Err
  }

  /** Half bytes 12 and 16 are forced, so the identity can only be the zero identity when every
      other half byte it takes from the digest vanishes. */
  predicate Vanishes(value: string)
    requires IsDigest(value)
  {
    forall i :: 0 <= i < 32 && i != 12 ==> IdentityNibble(value, i) == if i == 16 then 8 else 0
  }

  lemma IdentityIsUUID(value: string)
    requires IsDigest(value)
    ensures ValidUUIDv7(IdentityText(value)) <==> IdentityText(value) != ZERO_UUID
  {
    var text := IdentityText(value);
    forall i | 0 <= i < 36
      ensures if i == 8 || i == 13 || i == 18 || i == 23 then text[i] == '-' else IsLowerHex(text[i])
    {
    }
    assert NibbleAt(14) == 12 && NibbleAt(19) == 16;
    assert text[14] == HexDigit(7) && text[19] == HexDigit(Nibble(value[23]) % 4 + 8);
  }

  lemma NibbleAtIsOnto(k: nat) returns (i: nat)
    requires k < 32
    ensures i < 36 && !IsDash(i) && NibbleAt(i) == k
  {
    i := if k < 8 then k else if k < 12 then k + 1 else if k < 16 then k + 2 else if k < 20 then k + 3 else k + 4;
  }

  /** Two digests give the same text exactly when they give the same half bytes. */
  lemma TextBindsNibbles(a: string, b: string)
    requires IsDigest(a) && IsDigest(b)
    ensures IdentityText(a) == IdentityText(b) <==> forall k :: 0 <= k < 32 ==> IdentityNibble(a, k) == IdentityNibble(b, k)
  {
    if IdentityText(a) == IdentityText(b) {
      forall k | 0 <= k < 32 ensures IdentityNibble(a, k) == IdentityNibble(b, k) {
        var i := NibbleAtIsOnto(k);
        assert IdentityText(a)[i] == IdentityText(b)[i];
        assert Nibble(IdentityText(a)[i]) == IdentityNibble(a, k);
      }
    }
  }

  lemma ZeroNibble(i: nat)
    requires i < 36 && !IsDash(i)
    ensures ZERO_UUID[i] == HexDigit(if NibbleAt(i) == 12 then 7 else if NibbleAt(i) == 16 then 8 else 0)
  {
  }

  lemma ZeroTextVanishes(value: string)
    requires IsDigest(value)
    ensures IdentityText(value) == ZERO_UUID <==> Vanishes(value)
  {
    var text := IdentityText(value);
    if text == ZERO_UUID {
      forall k | 0 <= k < 32 && k != 12 ensures IdentityNibble(value, k) == if k == 16 then 8 else 0 {
        var i := NibbleAtIsOnto(k);
        ZeroNibble(i);
        assert text[i] == HexDigit(IdentityNibble(value, k));
        assert Nibble(text[i]) == IdentityNibble(value, k);
      }
    }
    if Vanishes(value) {
      forall i | 0 <= i < 36 ensures text[i] == ZERO_UUID[i] {
        if !IsDash(i) {
          ZeroNibble(i);
          assert IdentityNibble(value, NibbleAt(i)) == if NibbleAt(i) == 12 then 7 else if NibbleAt(i) == 16 then 8 else 0;
        }
      }
    }
  }

  /** A digest names a run unless its first sixteen bytes vanish outside the forced bits; two
      digests name the same run exactly when those bytes agree outside the forced bits. */
  lemma RunIDsAreStable(a: string, b: string)
    ensures RunIDOf(a).Ok? <==> IsDigest(a) && !Vanishes(a)
    ensures RunIDOf(a).Ok? ==> ValidRunID(RunIDOf(a).value)
    ensures RunIDOf(a).Ok? && RunIDOf(b).Ok? ==>
              (RunIDOf(a) == RunIDOf(b) <==> forall k :: 0 <= k < 32 ==> IdentityNibble(a, k) == IdentityNibble(b, k))
  {
    if IsDigest(a) {
      IdentityIsUUID(a);
      ZeroTextVanishes(a);
      assert ("r_" + IdentityText(a))[2..] == IdentityText(a);
      if IsDigest(b) {
        TextBindsNibbles(a, b);
        assert ("r_" + IdentityText(b))[2..] == IdentityText(b);
      }
    }
  }

  predicate LowerDigest(value: string) { IsDigest(value) && AllLowerHex(value[7..]) }

  /** The digits of either case and what they stand for, and the form of a digest. */
  lemma HexValues(value: string, i: nat)
    requires i < 6
    ensures Nibble("abcdef"[i]) == 10 + i && Nibble("ABCDEF"[i]) == 10 + i
    ensures forall c: char :: IsHex(c) <==> '0' <= c <= '9' || 'a' <= c <= 'f' || 'A' <= c <= 'F'
    ensures IsDigest(value) <==> |value| == 7 + 64 && value[..7] == "sha256:" && forall k :: 7 <= k < |value| ==> IsHex(value[k])
  {
  }

  lemma LowerHexStays(c: char)
    requires IsLowerHex(c)
    ensures IsHex(c) && HexDigit(Nibble(c)) == c
  {
  }

  lemma IdentityLayoutAt(value: string, i: nat)
    requires LowerDigest(value) && i < 36 && !IsDash(i) && i != 14 && i != 19
    ensures IdentityText(value)[i] == value[7 + NibbleAt(i)]
  {
    assert value[7 + NibbleAt(i)] == value[7..][NibbleAt(i)];
    LowerHexStays(value[7 + NibbleAt(i)]);
  }

  function LaidOut(value: string, variant: char): string
    requires LowerDigest(value)
  {
    value[7..15] + "-" + value[15..19] + "-7" + value[20..23] + "-" + [variant] + value[24..27] + "-" + value[27..39]
  }

  lemma LaidOutAt(value: string, variant: char, i: nat)
    requires LowerDigest(value) && i < 36
    ensures |LaidOut(value, variant)| == 36
    ensures LaidOut(value, variant)[i]
         == if IsDash(i) then '-' else if i == 14 then '7' else if i == 19 then variant else value[7 + NibbleAt(i)]
  {
  }

  lemma VariantDigit(value: string)
    requires IsDigest(value)
    ensures HexDigit(Nibble(value[23]) % 4 + 8) in "89ab"
    ensures IdentityText(value)[14] == '7' && IdentityText(value)[19] == HexDigit(Nibble(value[23]) % 4 + 8)
  {
    assert NibbleAt(14) == 12 && NibbleAt(19) == 16;
  }

  /** What stands where in a run identity: the first sixteen bytes of the digest, in groups of eight,
      four, four, four and twelve digits, with a seven in front of the third group's last three and
      one of 8, 9, a and b in front of the fourth's. */
  lemma RunIDLayout(value: string) returns (variant: char)
    requires LowerDigest(value) && RunIDOf(value).Ok?
    ensures variant in "89ab"
    ensures RunIDOf(value).value
         == "r_" + (value[7..15] + "-" + value[15..19] + "-7" + value[20..23] + "-" + [variant] + value[24..27] + "-"
                    + value[27..39])
  {
    var text := IdentityText(value);
    variant := HexDigit(Nibble(value[23]) % 4 + 8);
    VariantDigit(value);
    LaidOutAt(value, variant, 0);
    forall i | 0 <= i < 36 ensures text[i] == LaidOut(value, variant)[i] {
      LaidOutAt(value, variant, i);
      if !IsDash(i) && i != 14 && i != 19 { IdentityLayoutAt(value, i); }
    }
    assert text == LaidOut(value, variant);
  }

  // ---------------------------------------------------------------- the run identity, byte by byte

  /** Byte j of the identity. */
  function IdentityByte(value: string, j: nat): (b: nat)
    requires IsDigest(value) && j < 16
    ensures b < 0x100
  {
    16 * IdentityNibble(value, 2 * j) + IdentityNibble(value, 2 * j + 1)
  }

  predicate DashBefore(j: nat) { j == 4 || j == 6 || j == 8 || j == 10 }

  /** Where the digits of byte j begin in the dashed text. */
  function TextAt(j: nat): nat
    requires j <= 16
  {
    2 * j + if j < 4 then 0 else if j < 6 then 1 else if j < 8 then 2 else if j < 10 then 3 else 4
  }

  lemma ByteIsPrinted(value: string, j: nat)
    requires IsDigest(value) && j < 16
    ensures TextAt(j) + 2 <= 36
    ensures IdentityText(value)[TextAt(j)] == HexDigit(IdentityByte(value, j) / 16)
    ensures IdentityText(value)[TextAt(j) + 1] == HexDigit(IdentityByte(value, j) % 16)
    ensures DashBefore(j) ==> IdentityText(value)[TextAt(j) - 1] == '-'
    ensures TextAt(j + 1) == TextAt(j) + 2 + if DashBefore(j + 1) then 1 else 0
  {
    assert NibbleAt(TextAt(j)) == 2 * j && NibbleAt(TextAt(j) + 1) == 2 * j + 1;
  }

  /** Byte j as it is decoded from the digest. */
  function DecodedByte(value: string, j: nat): nat
    requires IsDigest(value) && j < 16
  {
    16 * Nibble(value[7 + 2 * j]) + Nibble(value[8 + 2 * j])
  }

  /** The forced bits, on whole bytes. */
  lemma ForcedByte(value: string, j: nat)
    requires IsDigest(value) && j < 16
    ensures IdentityByte(value, j)
         == if j == 6 then DecodedByte(value, 6) % 0x10 + 0x70
            else if j == 8 then DecodedByte(value, 8) % 0x40 + 0x80
            else DecodedByte(value, j)
  {
    TwoNibbles(Nibble(value[7 + 2 * j]), Nibble(value[8 + 2 * j]));
  }

  lemma TwoNibbles(high: nat, low: nat)
    requires high < 16 && low < 16
    ensures (16 * high + low) % 0x10 == low && (16 * high + low) % 0x40 == 16 * (high % 4) + low
  {
    var q, r := high / 4, high % 4;
    assert high == 4 * q + r;
    assert 16 * high + low == 0x40 * q + (16 * r + low);
  }

  /** Sixteen decoded bytes, two of them overwritten in place. */
  method IdentityBytes(value: string) returns (uuid: array<nat>)
    requires IsDigest(value)
    ensures fresh(uuid) && uuid.Length == 16
    ensures forall j :: 0 <= j < 16 ==> uuid[j] == IdentityByte(value, j)
  {
    uuid := new nat[16](j requires 0 <= j < 16 => DecodedByte(value, j));
    uuid[6] := uuid[6] % 0x10 + 0x70;
    uuid[8] := uuid[8] % 0x40 + 0x80;
    forall j | 0 <= j < 16 ensures uuid[j] == IdentityByte(value, j) { ForcedByte(value, j); }
  }

  /** What is printed before byte j. */
  function Printed(value: string, j: nat): string
    requires IsDigest(value) && j <= 16
  {
    IdentityText(value)[..TextAt(j) - if DashBefore(j) then 1 else 0]
  }

  lemma PrintsNext(value: string, j: nat)
    requires IsDigest(value) && j < 16
    ensures Printed(value, j + 1)
         == Printed(value, j) + (if DashBefore(j) then "-" else "")
            + [HexDigit(IdentityByte(value, j) / 16), HexDigit(IdentityByte(value, j) % 16)]
  {
    ByteIsPrinted(value, j);
  }

  /** CompositionFingerprint.RunID */
  method RunID(value: string) returns (result: Result<string>)
    ensures result == RunIDOf(value)
  {
    if !IsDigest(value) { return Err; }
    var uuid := IdentityBytes(value);
    var text := "";
    for j := 0 to 16
      invariant forall k :: 0 <= k < 16 ==> uuid[k] == IdentityByte(value, k)
      invariant text == Printed(value, j)
    {
      PrintsNext(value, j);
      if DashBefore(j) { text := text + "-"; } else { assert text + "" == text; }
      text := text + [HexDigit(uuid[j] / 16), HexDigit(uuid[j] % 16)];
    }
    assert text == IdentityText(value);
    result := if ValidRunID("r_" + text) then Ok("r_" + text) else Err;
  }
}
