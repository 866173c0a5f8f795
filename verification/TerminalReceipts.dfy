/** The evidence that ends a run: namespace receipts, their aggregate, the completion of a workspace,
    and the receipts whose identifiers are digests of all that.  The hexadecimal digest of a text is
    a parameter; what identifiers bind is stated on the texts that are digested. */
module TerminalReceipts {
  import opened Prelude
  import opened Ordering
  import opened Sorting
  import opened Decimal
  import opened Paths

  // ---------------------------------------------------------------- identities

  datatype SnapshotIdentity = SnapshotIdentity(
    snapshotPath: string, snapshotName: string, manifestSHA256: string, policyIdentity: string,
    rootDevice: nat, rootInode: nat, snapshotDevice: nat, snapshotInode: nat)
  {
    predicate Valid() {
      && snapshotPath != "" && ValidSnapshotName(snapshotName) && ValidSHA256(manifestSHA256) && policyIdentity != ""
      && rootDevice != 0 && rootInode != 0 && snapshotDevice != 0 && snapshotInode != 0
    }
  }

  /** "snapshot-" and the hexadecimal text of sixteen bytes, in either case. */
  predicate ValidSnapshotName(name: string) {
    HasPrefix(name, "snapshot-") && |name| == 41
    && forall i :: 9 <= i < 41 ==> IsLowerHex(name[i]) || 'A' <= name[i] <= 'F'
  }

  /** The zero value of an identity, which is what an unbound state holds. */
  const NO_IDENTITY := SnapshotIdentity("", "", "", "", 0, 0, 0, 0)

  // ---------------------------------------------------------------- namespaces

  /** validProviderInstanceID */
  predicate ValidInstance(value: string) {
    && 0 < |value| <= 64 && 'a' <= value[0] <= 'z'
    && forall i :: 1 <= i < |value| ==> 'a' <= value[i] <= 'z' || '0' <= value[i] <= '9' || value[i] in "._-"
  }

  datatype NamespaceReceipt = NamespaceReceipt(
    instance: string, generation: string, drained: bool, credentialsZeroed: bool, unlinked: bool, tornDown: bool)
  {
    predicate Valid() {
      && ValidInstance(instance) && generation != "" && '\0' !in generation
      && drained && credentialsZeroed && unlinked && tornDown
    }
  }

  function InstanceOf(receipt: NamespaceReceipt): string { receipt.instance }

  const NAMESPACE_HEAD := "mulgae-provider-namespace-terminal-v1\0"
  const NAMESPACE_TAIL := "\0drained\0credentials-zeroed\0unlinked\0torn-down"

  /** The text that names a namespace receipt. */
  function NamespaceInput(receipt: NamespaceReceipt): string {
    NAMESPACE_HEAD + receipt.instance + "\0" + receipt.generation + NAMESPACE_TAIL
  }

  lemma SameSurroundings(head: string, a: string, b: string, tail: string)
    ensures head + a + tail == head + b + tail <==> a == b
  {
    if head + a + tail == head + b + tail {
      assert |head + a + tail| == |head| + |a| + |tail| && |head + b + tail| == |head| + |b| + |tail|;
      assert (head + a + tail)[|head|..|head| + |a|] == a && (head + b + tail)[|head|..|head| + |b|] == b;
    }
  }

  /** The separators inside it do not keep the text from naming one receipt. */
  lemma NamespaceInputBinds(a: NamespaceReceipt, b: NamespaceReceipt)
    requires a.Valid() && b.Valid()
    ensures NamespaceInput(a) == NamespaceInput(b) <==> a == b
  {
    var x, y := a.instance + ['\0'] + a.generation, b.instance + ['\0'] + b.generation;
    assert NamespaceInput(a) == NAMESPACE_HEAD + x + NAMESPACE_TAIL;
    assert NamespaceInput(b) == NAMESPACE_HEAD + y + NAMESPACE_TAIL;
    SameSurroundings(NAMESPACE_HEAD, x, y, NAMESPACE_TAIL);
    if x == y { FirstSeparator(a.instance, a.generation, b.instance, b.generation, '\0'); }
  }

  // ---------------------------------------------------------------- the aggregate of a run

  predicate AllValid(receipts: seq<NamespaceReceipt>) {
    forall i :: 0 <= i < |receipts| ==> receipts[i].Valid()
  }

  /** Valid receipts of different instances, in the order of the instances. */
  predicate Canonical(receipts: seq<NamespaceReceipt>) {
    && receipts != [] && AllValid(receipts)
    && forall i, j :: 0 <= i < j < |receipts| ==> Less(receipts[i].instance, receipts[j].instance)
  }

  datatype ProviderTerminal = ProviderTerminal(receipts: seq<NamespaceReceipt>, noNamespaces: bool) {
    predicate NoNamespaces() { noNamespaces && receipts == [] }

    predicate Valid() { NoNamespaces() || (!noNamespaces && Canonical(receipts)) }
  }

  lemma CanonicalAreDistinct(receipts: seq<NamespaceReceipt>)
    requires Canonical(receipts)
    ensures StrictlyAscending(Keys(receipts, InstanceOf)) && DistinctKeys(receipts, InstanceOf)
  {
    forall i, j | 0 <= i < j < |receipts| ensures InstanceOf(receipts[i]) != InstanceOf(receipts[j]) {
      LessIrreflexive(receipts[i].instance);
    }
  }

  predicate NeighboursDiffer(receipts: seq<NamespaceReceipt>) {
    forall i :: 0 < i < |receipts| ==> receipts[i - 1].instance != receipts[i].instance
  }

  predicate NoneDescends(receipts: seq<NamespaceReceipt>) {
    forall i, j :: 0 <= i < j < |receipts| ==> !Less(receipts[j].instance, receipts[i].instance)
  }

  lemma StepsUp(a: string, b: string, c: string)
    requires !Less(b, a) && a != b && !Less(c, b)
    ensures Less(a, b) && Less(a, c)
  {
    LessTotal(a, b);
    LessTotal(b, c);
    if Less(b, c) { LessTransitive(a, b, c); }
  }

  lemma NeighboursAscend(receipts: seq<NamespaceReceipt>, i: nat, j: nat)
    requires NoneDescends(receipts) && NeighboursDiffer(receipts) && i < j < |receipts|
    ensures Less(receipts[i].instance, receipts[j].instance)
  {
    assert receipts[i + 1 - 1].instance != receipts[i + 1].instance;
    LessIrreflexive(receipts[j].instance);
    StepsUp(receipts[i].instance, receipts[i + 1].instance, receipts[j].instance);
  }

  /** In a sorted list it is enough to compare neighbours. */
  lemma SortedAreDistinct(receipts: seq<NamespaceReceipt>)
    requires NoneDescends(receipts)
    ensures NeighboursDiffer(receipts) <==> DistinctKeys(receipts, InstanceOf)
    ensures NeighboursDiffer(receipts) && receipts != [] && AllValid(receipts) ==> Canonical(receipts)
  {
    if NeighboursDiffer(receipts) {
      forall i, j | 0 <= i < j < |receipts|
        ensures Less(receipts[i].instance, receipts[j].instance) && InstanceOf(receipts[i]) != InstanceOf(receipts[j])
      {
        NeighboursAscend(receipts, i, j);
        LessIrreflexive(receipts[i].instance);
      }
    } else {
      var i :| 0 < i < |receipts| && receipts[i - 1].instance == receipts[i].instance;
      assert InstanceOf(receipts[i - 1]) == InstanceOf(receipts[i]);
    }
  }

  lemma ValidityPermutes(a: seq<NamespaceReceipt>, b: seq<NamespaceReceipt>)
    requires multiset(a) == multiset(b)
    ensures AllValid(a) <==> AllValid(b)
    ensures DistinctKeys(a, InstanceOf) <==> DistinctKeys(b, InstanceOf)
    ensures |a| == |b|
  {
    SameMembers(a, b);
    forall i | 0 <= i < |a| ensures a[i] in b { assert a[i] in a; }
    forall i | 0 <= i < |b| ensures b[i] in a { assert b[i] in b; }
    if DistinctKeys(a, InstanceOf) { DistinctKeysPermute(a, b, InstanceOf); }
    if DistinctKeys(b, InstanceOf) { DistinctKeysPermute(b, a, InstanceOf); }
  }

  /** Accepts exactly non-empty lists of valid receipts of different instances, in any order, and
      puts them in canonical order. */
  method NewProviderRunTerminalReceipt(receipts: seq<NamespaceReceipt>) returns (result: Result<ProviderTerminal>)
    ensures result.Ok? <==> receipts != [] && AllValid(receipts) && DistinctKeys(receipts, InstanceOf)
    ensures result.Ok? ==> result.value.Valid() && !result.value.noNamespaces
    ensures result.Ok? ==> multiset(result.value.receipts) == multiset(receipts)
  {
    if |receipts| == 0 { return Err; }
    var less := (a: NamespaceReceipt, b: NamespaceReceipt) => Less(a.instance, b.instance);
    KeyOrderIsStrictWeak(less, InstanceOf);
    var copied := SortSlice(receipts, less);
    ValidityPermutes(receipts, copied);
    assert forall i, j :: 0 <= i < j < |copied| ==> !less(copied[j], copied[i]);
    SortedAreDistinct(copied);
    var ok := EachValidAndNew(copied);
    result := if ok then Ok(ProviderTerminal(copied, false)) else Err;
  }

  method EachValidAndNew(sorted: seq<NamespaceReceipt>) returns (ok: bool)
    ensures ok <==> AllValid(sorted) && NeighboursDiffer(sorted)
  {
    for index := 0 to |sorted|
      invariant forall k :: 0 <= k < index ==> sorted[k].Valid()
      invariant forall k :: 0 < k < index ==> sorted[k - 1].instance != sorted[k].instance
    {
      if !sorted[index].Valid() { return false; }
      if index > 0 && sorted[index - 1].instance == sorted[index].instance { return false; }
    }
    ok := true;
  }

  lemma CanonicalIsUnique(a: seq<NamespaceReceipt>, b: seq<NamespaceReceipt>)
    requires Canonical(a) && Canonical(b) && multiset(a) == multiset(b)
    ensures a == b
  {
    var less := (x: NamespaceReceipt, y: NamespaceReceipt) => Less(x.instance, y.instance);
    forall i, j | 0 <= i < j < |a| ensures !less(a[j], a[i]) {
      LessAsymmetric(a[i].instance, a[j].instance);
    }
    CanonicalAreDistinct(b);
    OnlyArrangement(a, b, less, InstanceOf);
  }

  /** Rebuilding an aggregate and comparing tells exactly the valid ones. */
  method AggregateIsValid(terminal: ProviderTerminal) returns (ok: bool)
    ensures ok <==> terminal.Valid()
  {
    if terminal.NoNamespaces() { return true; }
    if terminal.noNamespaces { return false; }
    var receipts := terminal.receipts;
    var rebuilt := NewProviderRunTerminalReceipt(receipts);
    if Canonical(receipts) {
      CanonicalAreDistinct(receipts);
      CanonicalIsUnique(receipts, rebuilt.value.receipts);
    }
    if rebuilt.Err? || |receipts| != |rebuilt.value.receipts| { return false; }
    for index := 0 to |receipts|
      invariant forall k :: 0 <= k < index ==> receipts[k] == rebuilt.value.receipts[k]
    {
      if receipts[index] != rebuilt.value.receipts[index] { return false; }
    }
    assert receipts == rebuilt.value.receipts;
    ok := true;
  }

  // ---------------------------------------------------------------- completion and receipts

  datatype Completion = Completion(workspace: SnapshotIdentity, runID: string, terminal: ProviderTerminal) {
    predicate Valid() { workspace.Valid() && ValidRunID(runID) && terminal.Valid() }
  }

  /** A qualification workspace has nothing to show but itself. */
  datatype Receipt =
    | DrainReceipt(workspace: SnapshotIdentity)
    | ReleaseReceipt(workspace: SnapshotIdentity, runID: string, terminal: ProviderTerminal, receiptID: string)
  {
    predicate Valid(digest: string -> string) {
      ReleaseReceipt? ==>
        Completion(workspace, runID, terminal).Valid() && receiptID == ReceiptID(digest, workspace, runID, terminal)
    }
  }

  function NamespaceFields(receipts: seq<NamespaceReceipt>): seq<string> {
    if receipts == [] then []
    else [receipts[0].instance, receipts[0].generation] + NamespaceFields(receipts[1..])
  }

  function TerminalFields(terminal: ProviderTerminal): seq<string> {
    if terminal.NoNamespaces() then ["no-namespaces"] else ["namespaces"] + NamespaceFields(terminal.receipts)
  }

  function WorkspaceFields(workspace: SnapshotIdentity, runID: string): seq<string> {
    ["mulgae.workspace-terminal-receipt.v1", workspace.snapshotPath, workspace.snapshotName, workspace.manifestSHA256,
     workspace.policyIdentity, Dec(workspace.rootDevice), Dec(workspace.rootInode), Dec(workspace.snapshotDevice),
     Dec(workspace.snapshotInode), runID]
  }

  function Frames(values: seq<string>): string {
    if values == [] then "" else Frame(values[0]) + Frames(values[1..])
  }

  /** The text that names a release. */
  function ReceiptInput(workspace: SnapshotIdentity, runID: string, terminal: ProviderTerminal): string {
    Frames(WorkspaceFields(workspace, runID) + TerminalFields(terminal))
  }

  function ReceiptID(digest: string -> string, workspace: SnapshotIdentity, runID: string, terminal: ProviderTerminal): string {
    "workspace-terminal:v1:sha256:" + digest(ReceiptInput(workspace, runID, terminal))
  }

  /** newWorkspaceTerminalReceipt */
  function ReleaseReceiptOf(digest: string -> string, completion: Completion): Receipt {
    ReleaseReceipt(completion.workspace, completion.runID, completion.terminal,
                   ReceiptID(digest, completion.workspace, completion.runID, completion.terminal))
  }

  lemma {:induction false} FramesInjective(a: seq<string>, b: seq<string>)
    requires Frames(a) == Frames(b)
    ensures a == b
  {
    if a != [] && b != [] {
      FrameDelimits(a[0], Frames(a[1..]), b[0], Frames(b[1..]));
      FramesInjective(a[1..], b[1..]);
      assert a == [a[0]] + a[1..] && b == [b[0]] + b[1..];
    }
  }

  lemma {:induction false} NamespaceFieldsBind(a: seq<NamespaceReceipt>, b: seq<NamespaceReceipt>)
    requires AllValid(a) && AllValid(b) && NamespaceFields(a) == NamespaceFields(b)
    ensures a == b
  {
    if a != [] && b != [] {
      var x, y := NamespaceFields(a), NamespaceFields(b);
      assert x[0] == a[0].instance && x[1] == a[0].generation && x[2..] == NamespaceFields(a[1..]);
      assert y[0] == b[0].instance && y[1] == b[0].generation && y[2..] == NamespaceFields(b[1..]);
      NamespaceFieldsBind(a[1..], b[1..]);
      assert a == [a[0]] + a[1..] && b == [b[0]] + b[1..];
    }
  }

  lemma TerminalFieldsBind(a: ProviderTerminal, b: ProviderTerminal)
    requires a.Valid() && b.Valid() && TerminalFields(a) == TerminalFields(b)
    ensures a == b
  {
    assert "no-namespaces"[2] == '-' && "namespaces"[2] == 'm';
    assert TerminalFields(a)[0] == TerminalFields(b)[0];
    if !a.NoNamespaces() && !b.NoNamespaces() {
      assert TerminalFields(a)[1..] == NamespaceFields(a.receipts) && TerminalFields(b)[1..] == NamespaceFields(b.receipts);
      NamespaceFieldsBind(a.receipts, b.receipts);
    }
  }

  lemma WorkspaceFieldsBind(a: SnapshotIdentity, runA: string, b: SnapshotIdentity, runB: string)
    requires WorkspaceFields(a, runA) == WorkspaceFields(b, runB)
    ensures a == b && runA == runB
  {
    var x, y := WorkspaceFields(a, runA), WorkspaceFields(b, runB);
    assert x[1] == y[1] && x[2] == y[2] && x[3] == y[3] && x[4] == y[4] && x[9] == y[9];
    assert x[5] == y[5] && x[6] == y[6] && x[7] == y[7] && x[8] == y[8];
    DecInjective(a.rootDevice, b.rootDevice);
    DecInjective(a.rootInode, b.rootInode);
    DecInjective(a.snapshotDevice, b.snapshotDevice);
    DecInjective(a.snapshotInode, b.snapshotInode);
  }

  lemma SplitFields<T>(a: seq<T>, x: seq<T>, b: seq<T>, y: seq<T>)
    requires |a| == |b| && a + x == b + y
    ensures a == b && x == y
  {
    assert (a + x)[..|a|] == a && (b + y)[..|b|] == b && (a + x)[|a|..] == x && (b + y)[|b|..] == y;
  }

  /** Two releases are named by the same text exactly when they are of the same workspace and run
      and show the cleanup of the same namespaces: the identifier binds the whole receipt. */
  lemma ReceiptInputBinds(a: Completion, b: Completion)
    requires a.Valid() && b.Valid()
    ensures ReceiptInput(a.workspace, a.runID, a.terminal) == ReceiptInput(b.workspace, b.runID, b.terminal) <==> a == b
  {
    var x, y := WorkspaceFields(a.workspace, a.runID), WorkspaceFields(b.workspace, b.runID);
    if Frames(x + TerminalFields(a.terminal)) == Frames(y + TerminalFields(b.terminal)) {
      FramesInjective(x + TerminalFields(a.terminal), y + TerminalFields(b.terminal));
      SplitFields(x, TerminalFields(a.terminal), y, TerminalFields(b.terminal));
      WorkspaceFieldsBind(a.workspace, a.runID, b.workspace, b.runID);
      TerminalFieldsBind(a.terminal, b.terminal);
    }
  }

  lemma {:induction false} FramesConcatenate(a: seq<string>, b: seq<string>)
    ensures Frames(a + b) == Frames(a) + Frames(b)
  {
    if a == [] {
      assert a + b == b;
    } else {
      assert (a + b)[1..] == a[1..] + b;
      FramesConcatenate(a[1..], b);
    }
  }

  lemma NextFrame(written: seq<string>, value: string)
    ensures Frames(written + [value]) == Frames(written) + Frame(value)
  {
    FramesConcatenate(written, [value]);
    assert [value][1..] == [] && Frames([value]) == Frame(value) + "";
  }

  lemma {:induction false} NamespaceFieldsGrow(a: seq<NamespaceReceipt>, b: NamespaceReceipt)
    ensures NamespaceFields(a + [b]) == NamespaceFields(a) + [b.instance] + [b.generation]
  {
    if a == [] {
      assert (a + [b])[1..] == [];
    } else {
      assert (a + [b])[1..] == a[1..] + [b];
      NamespaceFieldsGrow(a[1..], b);
    }
  }

  /** The writes of workspaceTerminalReceiptID, up to the digest. */
  method WorkspaceTerminalReceiptInput(workspace: SnapshotIdentity, runID: string, terminal: ProviderTerminal)
    returns (written: string)
    ensures written == ReceiptInput(workspace, runID, terminal)
  {
    var head := WorkspaceFields(workspace, runID);
    written := "";
    for i := 0 to |head|
      invariant written == Frames(head[..i])
    {
      assert head[..i + 1] == head[..i] + [head[i]];
      NextFrame(head[..i], head[i]);
      written := written + Frame(head[i]);
    }
    assert head[..|head|] == head;
    if terminal.NoNamespaces() {
      NextFrame(head, "no-namespaces");
      written := written + Frame("no-namespaces");
    } else {
      NextFrame(head, "namespaces");
      written := written + Frame("namespaces");
      written := WriteNamespaces(written, head + ["namespaces"], terminal.receipts);
      Associates(head, ["namespaces"], NamespaceFields(terminal.receipts));
    }
  }

  method WriteNamespaces(start: string, ghost before: seq<string>, receipts: seq<NamespaceReceipt>) returns (written: string)
    requires start == Frames(before)
    ensures written == Frames(before + NamespaceFields(receipts))
  {
    written := start;
    assert before + NamespaceFields(receipts[..0]) == before;
    for i := 0 to |receipts|
      invariant written == Frames(before + NamespaceFields(receipts[..i]))
    {
      var receipt := receipts[i];
      ghost var fields := before + NamespaceFields(receipts[..i]);
      assert receipts[..i + 1] == receipts[..i] + [receipt];
      NamespaceFieldsGrow(receipts[..i], receipt);
      assert before + NamespaceFields(receipts[..i + 1]) == fields + [receipt.instance] + [receipt.generation];
      NextFrame(fields, receipt.instance);
      NextFrame(fields + [receipt.instance], receipt.generation);
      written := written + Frame(receipt.instance) + Frame(receipt.generation);
    }
    assert receipts[..|receipts|] == receipts;
  }

  // ---------------------------------------------------------------- what evidence must show

  lemma InstanceAlphabet(c: char)
    ensures 'a' <= c <= 'z' || '0' <= c <= '9' || c in "._-" <==> c in "abcdefghijklmnopqrstuvwxyz0123456789._-"
  {
  }

  lemma HexAlphabet(c: char)
    ensures IsLowerHex(c) || 'A' <= c <= 'F' <==> c in "0123456789abcdefABCDEF"
  {
  }

  lemma SpelledOver(value: string, instances: string, hex: string)
    requires forall c: char :: ('a' <= c <= 'z' || '0' <= c <= '9' || c in "._-" <==> c in instances)
                               && (IsLowerHex(c) || 'A' <= c <= 'F' <==> c in hex)
    ensures ValidInstance(value) <==>
              1 <= |value| <= 64 && 'a' <= value[0] <= 'z' && forall c :: c in value ==> c in instances
    ensures ValidSnapshotName(value) <==>
              |value| == 41 && value[..9] == "snapshot-" && forall i :: 9 <= i < 41 ==> value[i] in hex
  {
    if |value| > 0 && 'a' <= value[0] <= 'z' && forall c :: c in value ==> c in instances {
      forall i | 1 <= i < |value| ensures value[i] in instances { assert value[i] in value; }
    }
  }

  /** The spelling of provider instances and of snapshot names. */
  lemma NamesAsSpelled(value: string)
    ensures ValidInstance(value) <==>
              && 1 <= |value| <= 64 && 'a' <= value[0] <= 'z'
              && forall c :: c in value ==> c in "abcdefghijklmnopqrstuvwxyz0123456789._-"
    ensures ValidSnapshotName(value) <==>
              |value| == 41 && value[..9] == "snapshot-" && forall i :: 9 <= i < 41 ==> value[i] in "0123456789abcdefABCDEF"
  {
    forall c: char
      ensures 'a' <= c <= 'z' || '0' <= c <= '9' || c in "._-" <==> c in "abcdefghijklmnopqrstuvwxyz0123456789._-"
      ensures IsLowerHex(c) || 'A' <= c <= 'F' <==> c in "0123456789abcdefABCDEF"
    {
      InstanceAlphabet(c);
      HexAlphabet(c);
    }
    SpelledOver(value, "abcdefghijklmnopqrstuvwxyz0123456789._-", "0123456789abcdefABCDEF");
  }

  /** A namespace receipt shows all four steps of the cleanup of a named namespace. */
  lemma ReceiptShowsCleanup(receipt: NamespaceReceipt)
    ensures receipt.Valid() <==>
              && ValidInstance(receipt.instance) && receipt.generation != ""
              && (forall c :: c in receipt.generation ==> c != '\0')
              && [receipt.drained, receipt.credentialsZeroed, receipt.unlinked, receipt.tornDown] == [true, true, true, true]
  {
    var steps := [receipt.drained, receipt.credentialsZeroed, receipt.unlinked, receipt.tornDown];
    if steps == [true, true, true, true] { assert steps[0] && steps[1] && steps[2] && steps[3]; }
  }

  /** Nothing in a valid identity or completion can be missing. */
  lemma EveryPartIsChecked(workspace: SnapshotIdentity, runID: string, terminal: ProviderTerminal)
    ensures Completion(workspace, runID, terminal).Valid() <==> workspace.Valid() && ValidRunID(runID) && terminal.Valid()
    ensures workspace.Valid() <==>
              && workspace.snapshotPath != "" && ValidSnapshotName(workspace.snapshotName)
              && ValidSHA256(workspace.manifestSHA256) && workspace.policyIdentity != ""
              && 0 !in {workspace.rootDevice, workspace.rootInode, workspace.snapshotDevice, workspace.snapshotInode}
    ensures !NO_IDENTITY.Valid()
  {
  }

  // ---------------------------------------------------------------- the layout

  /** The identifying texts as they are spelled. */
  lemma NamespaceInputText(receipt: NamespaceReceipt)
    ensures NamespaceInput(receipt)
         == "mulgae-provider-namespace-terminal-v1\0" + receipt.instance + "\0" + receipt.generation
            + "\0drained\0credentials-zeroed\0unlinked\0torn-down"
  {
  }

  lemma {:induction false} FramesInTurn(a: string, rest: seq<string>)
    ensures Frames([a] + rest) == Dec(|a|) + ":" + a + Frames(rest)
  {
    assert ([a] + rest)[1..] == rest;
  }

  /** Which texts name a release, in which order, each after its length. */
  lemma ReceiptInputLayout(workspace: SnapshotIdentity, runID: string, terminal: ProviderTerminal)
    ensures var texts := ["mulgae.workspace-terminal-receipt.v1", workspace.snapshotPath, workspace.snapshotName,
                          workspace.manifestSHA256, workspace.policyIdentity, Dec(workspace.rootDevice),
                          Dec(workspace.rootInode), Dec(workspace.snapshotDevice), Dec(workspace.snapshotInode), runID];
            ReceiptInput(workspace, runID, terminal)
            == Frames(texts)
               + if terminal.receipts == [] && terminal.noNamespaces then Frames(["no-namespaces"])
                 else Frames(["namespaces"]) + Frames(NamespaceFields(terminal.receipts))
  {
    FramesConcatenate(WorkspaceFields(workspace, runID), TerminalFields(terminal));
    FramesConcatenate(["namespaces"], NamespaceFields(terminal.receipts));
  }

  /** Each namespace adds its instance, then its generation. */
  lemma NamespaceFieldsLayout(first: NamespaceReceipt, rest: seq<NamespaceReceipt>)
    ensures Frames(NamespaceFields([first] + rest)) == Frames([first.instance]) + Frames([first.generation]) + Frames(NamespaceFields(rest))
  {
    assert ([first] + rest)[1..] == rest;
    FramesConcatenate([first.instance], [first.generation]);
    FramesConcatenate([first.instance, first.generation], NamespaceFields(rest));
    assert [first.instance] + [first.generation] == [first.instance, first.generation];
  }
}
