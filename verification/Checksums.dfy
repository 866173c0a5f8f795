/** The checksum inventory of the embedded assets: printed when the assets are generated, parsed
    and compared with the embedded files when the catalog is opened. */
module Checksums {
  import opened Prelude
  import opened Ordering
  import opened Sorting
  import opened Paths
  import opened Capture

  const CHECKSUM_SOURCE := "CHECKSUMS.sha256"

  /** The hexadecimal digest and UTF-8 validity are parameters. */
  datatype Text = Text(digest: Bytes -> string, utf8: string -> bool)

  /** The digest prints as lower-case hexadecimal; ASCII is UTF-8, and UTF-8 texts concatenate. */
  ghost predicate TextLaws(text: Text) {
    && (forall b :: ValidDigest(text.digest(b)))
    && (forall s :: AllAscii(s) ==> text.utf8(s))
    && (forall a, b :: text.utf8(a) && text.utf8(b) ==> text.utf8(a + b))
  }

  /** validateEmbeddedSource; NUL and line breaks are not excluded. */
  predicate ValidSource(text: Text, source: string) {
    && source != "" && text.utf8(source) && '\\' !in source
    && forall i :: 0 <= i < |Split(source, '/')| ==> ValidComponent(Split(source, '/')[i])
  }

  /** The source rules: UTF-8 without backslash that is its own cleaned form and stays below the root. */
  lemma SourcesAreClean(text: Text, source: string)
    ensures ValidSource(text, source) <==>
              && source != "" && text.utf8(source) && '\\' !in source && source[0] != '/'
              && Clean(Split(source, '/'), []) == Split(source, '/')
              && source != "." && source != ".." && !HasPrefix(source, "../")
  {
    if source != "" { ComponentsAreClean(source); }
  }

  datatype SourceFile = SourceFile(source: string, bytes: Bytes)

  datatype Entry = Entry(source: string, digest: string) {
    function Line(): string { digest + "  " + source }
  }

  // ---------------------------------------------------------------- printing

  function Inventory(entries: seq<Entry>): string {
    if entries == [] then "" else entries[0].Line() + "\n" + Inventory(entries[1..])
  }

  /** A line is the digest, two spaces and the source, and every line ends with a line break. */
  lemma InventoryText(a: Entry, b: Entry)
    ensures Inventory([]) == "" && Inventory([a]) == a.digest + "  " + a.source + "\n"
    ensures Inventory([a, b]) == a.digest + "  " + a.source + "\n" + (b.digest + "  " + b.source + "\n")
  {
    assert [a][1..] == [] && [a, b][1..] == [b] && [b][1..] == [];
    assert a.Line() + "\n" + "" == a.Line() + "\n" && b.Line() + "\n" + "" == b.Line() + "\n";
  }

  /** The entries of the files in their order, the inventory itself left out. */
  function EntriesOf(text: Text, files: seq<SourceFile>): seq<Entry> {
    if files == [] then []
    else
      (if files[0].source == CHECKSUM_SOURCE then [] else [Entry(files[0].source, text.digest(files[0].bytes))])
      + EntriesOf(text, files[1..])
  }

  function SourceOf(file: SourceFile): string { file.source }

  /** The files in ascending order of their sources. */
  ghost predicate InSourceOrder(files: seq<SourceFile>, sorted: seq<SourceFile>) {
    multiset(sorted) == multiset(files) && SourcesAscend(sorted)
  }

  ghost predicate SourcesAscend(files: seq<SourceFile>) {
    forall i, j :: 0 <= i < j < |files| ==> Less(files[i].source, files[j].source)
  }

  lemma KeysAreSources(files: seq<SourceFile>)
    requires StrictlyAscending(Keys(files, SourceOf))
    ensures SourcesAscend(files)
  {
    forall i, j | 0 <= i < j < |files| ensures Less(files[i].source, files[j].source) {
      assert Keys(files, SourceOf)[i] == SourceOf(files[i]) && Keys(files, SourceOf)[j] == SourceOf(files[j]);
    }
  }

  /** The inventory of the files in source order; an empty one is an error. */
  ghost predicate Generates(text: Text, files: seq<SourceFile>, contents: Result<string>) {
    exists sorted :: InSourceOrder(files, sorted)
      && contents == if EntriesOf(text, sorted) == [] then Err else Ok(Inventory(EntriesOf(text, sorted)))
  }

  /** generate, from the collected files to the inventory it writes. */
  method Generate(text: Text, files: seq<SourceFile>) returns (contents: Result<string>)
    requires DistinctKeys(files, SourceOf)
    ensures Generates(text, files, contents)
  {
    var less := (a: SourceFile, b: SourceFile) => Less(a.source, b.source);
    KeyOrderIsStrictWeak(less, SourceOf);
    var sorted := SortSlice(files, less);
    DistinctKeysPermute(files, sorted, SourceOf);
    KeysAscend(sorted, less, SourceOf);
    KeysAreSources(sorted);
    var lines := PrintLines(text, sorted);
    JoinedLines(EntriesOf(text, sorted));
    contents := if |lines| == 0 then Err else Ok(Concat(lines));
    assert InSourceOrder(files, sorted);
  }

  method PrintLines(text: Text, files: seq<SourceFile>) returns (lines: seq<string>)
    ensures lines == Lines(EntriesOf(text, files))
  {
    lines := [];
    for i := 0 to |files|
      invariant lines == LinesUpTo(text, files, i)
    {
      NextLine(text, files, i);
      if files[i].source == CHECKSUM_SOURCE { continue; }
      var sum := text.digest(files[i].bytes);
      lines := lines + [LineText(sum, files[i].source)];
    }
    assert files[..|files|] == files;
  }

  function LineText(digest: string, source: string): string { digest + "  " + source + "\n" }

  function LinesUpTo(text: Text, files: seq<SourceFile>, n: nat): seq<string>
    requires n <= |files|
  {
    Lines(EntriesOf(text, files[..n]))
  }

  lemma NextLine(text: Text, files: seq<SourceFile>, i: nat)
    requires i < |files|
    ensures LinesUpTo(text, files, i + 1)
         == LinesUpTo(text, files, i)
            + if files[i].source == CHECKSUM_SOURCE then []
              else [LineText(text.digest(files[i].bytes), files[i].source)]
  {
    assert files[..i + 1] == files[..i] + [files[i]];
    EntriesConcatenate(text, files[..i], [files[i]]);
    assert [files[i]][1..] == [];
    if files[i].source != CHECKSUM_SOURCE {
      LinesGrow(EntriesOf(text, files[..i]), Entry(files[i].source, text.digest(files[i].bytes)));
    }
  }

  lemma {:induction false} EntriesConcatenate(text: Text, a: seq<SourceFile>, b: seq<SourceFile>)
    ensures EntriesOf(text, a + b) == EntriesOf(text, a) + EntriesOf(text, b)
    decreases |a|
  {
    if a == [] {
      assert a + b == b;
    } else {
      assert (a + b)[1..] == a[1..] + b;
      EntriesConcatenate(text, a[1..], b);
    }
  }

  lemma LinesGrow(entries: seq<Entry>, entry: Entry)
    ensures Lines(entries + [entry]) == Lines(entries) + [LineText(entry.digest, entry.source)]
  {
  }

  /** strings.Join with an empty separator. */
  function Concat(lines: seq<string>): string {
    if lines == [] then "" else lines[0] + Concat(lines[1..])
  }

  function Lines(entries: seq<Entry>): (lines: seq<string>)
    ensures |lines| == |entries|
  {
    seq(|entries|, i requires 0 <= i < |entries| => entries[i].Line() + "\n")
  }

  lemma {:induction false} JoinedLines(entries: seq<Entry>)
    ensures Concat(Lines(entries)) == Inventory(entries)
  {
    if entries != [] {
      JoinedLines(entries[1..]);
      assert Lines(entries)[1..] == Lines(entries[1..]);
    } else {
      assert Lines(entries) == [];
    }
  }

  // ---------------------------------------------------------------- parsing

  function ParseLine(text: Text, line: string): Result<Entry> {
    if |line| < 67 || line[64..66] != "  " then Err
    else
      var entry := Entry(line[66..], line[..64]);
      if ValidSource(text, entry.source) && entry.source != CHECKSUM_SOURCE && ValidDigest(entry.digest) then Ok(entry) else Err
  }

  function ParseLines(text: Text, lines: seq<string>, previous: string, known: map<string, string>)
    : Result<map<string, string>>
    decreases |lines|
  {
    if lines == [] then Ok(known)
    else
      match ParseLine(text, lines[0])
      case Err => Err
      case Ok(entry) =>
        if (previous != "" && !Less(previous, entry.source)) || entry.source in known then Err
        else ParseLines(text, lines[1..], entry.source, known[entry.source := entry.digest])
  }

  function Parse(text: Text, contents: string): Result<map<string, string>> {
    if contents == "" || !text.utf8(contents) || contents[|contents| - 1] != '\n' then Err
    else
      match ParseLines(text, Split(contents[..|contents| - 1], '\n'), "", map[])
      case Ok(checksums) => if checksums == map[] then Err else Ok(checksums)
      case Err => Err
  }

  method ParseChecksums(text: Text, contents: string) returns (result: Result<map<string, string>>)
    ensures result == Parse(text, contents)
  {
    if |contents| == 0 || !text.utf8(contents) || contents[|contents| - 1] != '\n' { return Err; }
    var lines := Split(contents[..|contents| - 1], '\n');
    var checksums: map<string, string> := map[];
    var previous := "";
    for i := 0 to |lines|
      invariant ParseLines(text, lines, "", map[]) == ParseLines(text, lines[i..], previous, checksums)
    {
      assert lines[i..][1..] == lines[i + 1..];
      var line := lines[i];
      if |line| < 67 || line[64..66] != "  " { return Err; }
      var digest, source := line[..64], line[66..];
      if !ValidSource(text, source) || source == CHECKSUM_SOURCE || !ValidDigest(digest) { return Err; }
      if previous != "" && !Less(previous, source) { return Err; }
      if source in checksums { return Err; }
      checksums := checksums[source := digest];
      previous := source;
    }
    if checksums == map[] { return Err; }
    result := Ok(checksums);
  }

  // ---------------------------------------------------------------- what was printed is parsed

  ghost function Digests(entries: seq<Entry>, known: map<string, string>): map<string, string> {
    if entries == [] then known else Digests(entries[1..], known[entries[0].source := entries[0].digest])
  }

  ghost predicate Printable(text: Text, entry: Entry) {
    ValidSource(text, entry.source) && entry.source != CHECKSUM_SOURCE && ValidDigest(entry.digest)
  }

  ghost predicate EntriesAscend(entries: seq<Entry>) {
    forall i, j :: 0 <= i < j < |entries| ==> Less(entries[i].source, entries[j].source)
  }

  lemma LineParses(text: Text, entry: Entry)
    requires Printable(text, entry)
    ensures ParseLine(text, entry.Line()) == Ok(entry)
  {
    var line := entry.Line();
    assert line[..64] == entry.digest && line[64..66] == "  " && line[66..] == entry.source;
  }

  lemma NoBreaks(text: Text, entry: Entry)
    requires Printable(text, entry) && '\n' !in entry.source
    ensures '\n' !in entry.Line()
  {
    forall i | 0 <= i < |entry.digest| ensures entry.digest[i] != '\n' { assert IsLowerHex(entry.digest[i]); }
  }

  lemma {:induction false} LinesParse(text: Text, entries: seq<Entry>, previous: string, known: map<string, string>)
    requires forall i :: 0 <= i < |entries| ==> Printable(text, entries[i])
    requires EntriesAscend(entries) && (entries != [] && previous != "" ==> Less(previous, entries[0].source))
    requires forall i :: 0 <= i < |entries| ==> entries[i].source !in known
    ensures ParseLines(text, PlainLines(entries), previous, known) == Ok(Digests(entries, known))
    decreases |entries|
  {
    if entries == [] {
      assert PlainLines(entries) == [];
    } else {
      LineParses(text, entries[0]);
      assert PlainLines(entries)[1..] == PlainLines(entries[1..]);
      forall i | 1 <= i < |entries| ensures entries[i].source != entries[0].source { LessIrreflexive(entries[0].source); }
      LinesParse(text, entries[1..], entries[0].source, known[entries[0].source := entries[0].digest]);
    }
  }

  function PlainLines(entries: seq<Entry>): (lines: seq<string>)
    ensures |lines| == |entries|
  {
    seq(|entries|, i requires 0 <= i < |entries| => entries[i].Line())
  }

  lemma {:induction false} InventoryIsJoined(entries: seq<Entry>)
    requires entries != []
    ensures Inventory(entries) == Join(PlainLines(entries), '\n') + "\n"
  {
    if |entries| == 1 {
      assert entries[1..] == [] && PlainLines(entries) == [entries[0].Line()];
      assert entries[0].Line() + "\n" + "" == entries[0].Line() + "\n";
    } else {
      InventoryIsJoined(entries[1..]);
      assert PlainLines(entries)[1..] == PlainLines(entries[1..]);
    }
  }

  lemma {:induction false} InventoryIsUTF8(text: Text, entries: seq<Entry>)
    requires TextLaws(text) && forall i :: 0 <= i < |entries| ==> Printable(text, entries[i])
    ensures text.utf8(Inventory(entries))
  {
    if entries == [] {
      assert AllAscii("");
    } else {
      InventoryIsUTF8(text, entries[1..]);
      LineIsUTF8(text, entries[0]);
    }
  }

  lemma LineIsUTF8(text: Text, entry: Entry)
    requires TextLaws(text) && Printable(text, entry)
    ensures text.utf8(entry.Line() + "\n")
  {
    assert AllAscii(entry.digest) && AllAscii("  ") && AllAscii("\n");
    assert text.utf8(entry.digest + "  ");
    assert text.utf8(entry.digest + "  " + entry.source);
  }

  lemma ParseOfJoined(text: Text, lines: seq<string>)
    requires lines != [] && forall i :: 0 <= i < |lines| ==> '\n' !in lines[i]
    requires text.utf8(Join(lines, '\n') + "\n")
    requires ParseLines(text, lines, "", map[]).Ok? && ParseLines(text, lines, "", map[]).value != map[]
    ensures Parse(text, Join(lines, '\n') + "\n") == ParseLines(text, lines, "", map[])
  {
    var contents := Join(lines, '\n') + "\n";
    assert contents[..|contents| - 1] == Join(lines, '\n');
    SplitJoin(lines, '\n');
  }

  lemma PlainLinesHaveNoBreaks(text: Text, entries: seq<Entry>)
    requires forall i :: 0 <= i < |entries| ==> Printable(text, entries[i]) && '\n' !in entries[i].source
    ensures forall i :: 0 <= i < |entries| ==> '\n' !in PlainLines(entries)[i]
  {
    forall i | 0 <= i < |entries| ensures '\n' !in PlainLines(entries)[i] { NoBreaks(text, entries[i]); }
  }

  lemma InventoryParses(text: Text, entries: seq<Entry>)
    requires TextLaws(text) && entries != [] && EntriesAscend(entries)
    requires forall i :: 0 <= i < |entries| ==> Printable(text, entries[i]) && '\n' !in entries[i].source
    ensures Parse(text, Inventory(entries)) == Ok(Digests(entries, map[]))
  {
    InventoryIsUTF8(text, entries);
    InventoryIsJoined(entries);
    PlainLinesHaveNoBreaks(text, entries);
    LinesParse(text, entries, "", map[]);
    DigestsNonempty(entries, map[]);
    ParseOfJoined(text, PlainLines(entries));
  }

  lemma {:induction false} DigestsNonempty(entries: seq<Entry>, known: map<string, string>)
    ensures Digests(entries, known).Keys == known.Keys + set i | 0 <= i < |entries| :: entries[i].source
    ensures entries != [] ==> Digests(entries, known) != map[]
    decreases |entries|
  {
    if entries != [] {
      DigestsNonempty(entries[1..], known[entries[0].source := entries[0].digest]);
      assert entries[0].source in Digests(entries, known);
      SourcesOfTail(entries);
    }
  }

  lemma SourcesOfTail(entries: seq<Entry>)
    requires entries != []
    ensures (set i | 0 <= i < |entries| :: entries[i].source)
         == {entries[0].source} + set i | 0 <= i < |entries[1..]| :: entries[1..][i].source
  {
    forall i | 1 <= i < |entries|
      ensures entries[i].source in set k | 0 <= k < |entries[1..]| :: entries[1..][k].source
    {
      assert entries[1..][i - 1] == entries[i];
    }
  }

  // ---------------------------------------------------------------- line breaks in sources

  /** Whatever parses has sources without line breaks: the parser never sees one. */
  lemma {:induction false} ParsedSourcesAreLines(text: Text, lines: seq<string>, previous: string, known: map<string, string>)
    requires ParseLines(text, lines, previous, known).Ok?
    requires forall i :: 0 <= i < |lines| ==> '\n' !in lines[i]
    requires forall source :: source in known ==> '\n' !in source
    ensures forall source :: source in ParseLines(text, lines, previous, known).value ==> '\n' !in source
    decreases |lines|
  {
    if lines != [] {
      var entry := ParseLine(text, lines[0]).value;
      assert forall c :: c in lines[0][66..] ==> c in lines[0];
      ParsedSourcesAreLines(text, lines[1..], entry.source, known[entry.source := entry.digest]);
    }
  }

  lemma ParsedKeysAreLines(text: Text, contents: string)
    requires Parse(text, contents).Ok?
    ensures forall source :: source in Parse(text, contents).value ==> '\n' !in source
  {
    ParsedSourcesAreLines(text, Split(contents[..|contents| - 1], '\n'), "", map[]);
  }

  lemma EntryIsKey(entries: seq<Entry>, i: nat)
    requires i < |entries|
    ensures entries[i].source in Digests(entries, map[])
  {
    DigestsNonempty(entries, map[]);
  }

  /** The printed inventory of canonical, strictly sorted sources reads back as exactly their
      digests if and only if no source contains a line break. */
  lemma InventoryRoundTrip(text: Text, entries: seq<Entry>)
    requires TextLaws(text) && entries != [] && EntriesAscend(entries)
    requires forall i :: 0 <= i < |entries| ==> Printable(text, entries[i])
    ensures Parse(text, Inventory(entries)) == Ok(Digests(entries, map[])) <==>
              forall i :: 0 <= i < |entries| ==> '\n' !in entries[i].source
  {
    if forall i :: 0 <= i < |entries| ==> '\n' !in entries[i].source {
      InventoryParses(text, entries);
    } else {
      var i :| 0 <= i < |entries| && '\n' in entries[i].source;
      EntryIsKey(entries, i);
      if Parse(text, Inventory(entries)).Ok? { ParsedKeysAreLines(text, Inventory(entries)); }
    }
  }

  /** A source that the validator accepts and whose inventory does not read back. */
  lemma LineBreakLosesInventory(text: Text, digest: string)
    requires TextLaws(text) && ValidDigest(digest)
    ensures Printable(text, Entry("a\nb", digest))
    ensures Parse(text, Inventory([Entry("a\nb", digest)])) != Ok(Digests([Entry("a\nb", digest)], map[]))
  {
    var entries := [Entry("a\nb", digest)];
    SplitAtom("a\nb", '/');
    assert AllAscii("a\nb");
    assert "a\nb"[1] != CHECKSUM_SOURCE[1] && entries[0].source[1] == '\n';
    InventoryRoundTrip(text, entries);
  }

  // ---------------------------------------------------------------- what was parsed was printed

  lemma LineIsPrinted(text: Text, line: string)
    requires ParseLine(text, line).Ok?
    ensures ParseLine(text, line).value.Line() == line
    ensures ValidSource(text, ParseLine(text, line).value.source) && ValidDigest(ParseLine(text, line).value.digest)
    ensures ParseLine(text, line).value.source != "CHECKSUMS.sha256"
  {
    assert line == line[..64] + line[64..66] + line[66..];
  }

  lemma {:induction false} ParsedLinesArePrinted(text: Text, lines: seq<string>, previous: string, known: map<string, string>)
    returns (entries: seq<Entry>)
    requires ParseLines(text, lines, previous, known).Ok?
    ensures PlainLines(entries) == lines && EntriesAscend(entries)
    ensures forall i :: 0 <= i < |entries| ==> Printable(text, entries[i])
    ensures entries != [] && previous != "" ==> Less(previous, entries[0].source)
    ensures ParseLines(text, lines, previous, known) == Ok(Digests(entries, known))
    decreases |lines|
  {
    if lines == [] {
      entries := [];
    } else {
      var entry := ParseLine(text, lines[0]).value;
      LineIsPrinted(text, lines[0]);
      var rest := ParsedLinesArePrinted(text, lines[1..], entry.source, known[entry.source := entry.digest]);
      entries := [entry] + rest;
      FirstAscends(entry, rest);
      assert PlainLines(entries) == [entry.Line()] + PlainLines(rest);
      assert lines == [lines[0]] + lines[1..] && entries[1..] == rest;
    }
  }

  lemma FirstAscends(entry: Entry, rest: seq<Entry>)
    requires EntriesAscend(rest) && (rest != [] ==> Less(entry.source, rest[0].source))
    ensures EntriesAscend([entry] + rest)
  {
    forall j | 0 <= j < |rest| ensures Less(entry.source, rest[j].source) {
      if j > 0 { LessTransitive(entry.source, rest[0].source, rest[j].source); }
    }
  }

  /** Whatever is accepted as an inventory is, character for character, the printed inventory of
      canonical sources in ascending order, the inventory itself and line breaks excluded, and parses
      to their digests. */
  lemma ParsedIsPrinted(text: Text, contents: string) returns (entries: seq<Entry>)
    requires Parse(text, contents).Ok?
    ensures entries != [] && contents == Inventory(entries) && EntriesAscend(entries)
    ensures forall i :: 0 <= i < |entries| ==>
              ValidSource(text, entries[i].source) && ValidDigest(entries[i].digest)
              && entries[i].source != "CHECKSUMS.sha256" && '\n' !in entries[i].source
    ensures Parse(text, contents) == Ok(Digests(entries, map[]))
  {
    var lines := Split(contents[..|contents| - 1], '\n');
    entries := ParsedLinesArePrinted(text, lines, "", map[]);
    JoinSplit(contents[..|contents| - 1], '\n');
    InventoryIsJoined(entries);
    assert contents == contents[..|contents| - 1] + "\n";
    forall i | 0 <= i < |entries| ensures '\n' !in entries[i].source {
      assert PlainLines(entries)[i] == lines[i] == entries[i].Line();
    }
  }

  // ---------------------------------------------------------------- comparing with the files

  ghost predicate Matches(text: Text, files: map<string, Bytes>, checksums: map<string, string>) {
    && CHECKSUM_SOURCE !in checksums
    && files.Keys == checksums.Keys + {CHECKSUM_SOURCE}
    && forall source :: source in checksums ==> text.digest(files[source]) == checksums[source]
  }

  ghost predicate FileMatches(text: Text, files: map<string, Bytes>, checksums: map<string, string>, source: string)
    requires source in files
  {
    source == CHECKSUM_SOURCE || (source in checksums && text.digest(files[source]) == checksums[source])
  }

  /** Counting, every file against its checksum, and every checksum against the files, accepts
      exactly the files whose sources and digests are those of the inventory. */
  method ValidateChecksums(text: Text, files: map<string, Bytes>, checksums: map<string, string>) returns (ok: bool)
    ensures ok <==> Matches(text, files, checksums)
  {
    assert |files| == |files.Keys| && |checksums| == |checksums.Keys|;
    if |files| != |checksums| + 1 {
      WrongCount(files.Keys, checksums.Keys);
      return false;
    }
    var unseen := files.Keys;
    while unseen != {}
      invariant unseen <= files.Keys
      invariant forall source :: source in files && source !in unseen ==> FileMatches(text, files, checksums, source)
      decreases |unseen|
    {
      var source :| source in unseen;
      if source != CHECKSUM_SOURCE && (source !in checksums || text.digest(files[source]) != checksums[source]) {
        return false;
      }
      unseen := unseen - {source};
    }
    unseen := checksums.Keys;
    while unseen != {}
      invariant unseen <= checksums.Keys
      invariant forall source :: source in checksums && source !in unseen ==> source in files
      decreases |unseen|
    {
      var source :| source in unseen;
      if source !in files { return false; }
      unseen := unseen - {source};
    }
    forall source | source in files ensures source in checksums.Keys + {CHECKSUM_SOURCE} {
      assert FileMatches(text, files, checksums, source);
    }
    OneMore(files.Keys, checksums.Keys);
    forall source | source in checksums ensures text.digest(files[source]) == checksums[source] {
      assert FileMatches(text, files, checksums, source);
    }
    ok := true;
  }

  lemma WrongCount(files: set<string>, checksums: set<string>)
    requires |files| != |checksums| + 1
    ensures CHECKSUM_SOURCE in checksums || files != checksums + {CHECKSUM_SOURCE}
  {
    if CHECKSUM_SOURCE !in checksums { assert |checksums + {CHECKSUM_SOURCE}| == |checksums| + 1; }
  }

  lemma OneMore(files: set<string>, checksums: set<string>)
    requires |files| == |checksums| + 1 && checksums <= files && files <= checksums + {CHECKSUM_SOURCE}
    ensures CHECKSUM_SOURCE !in checksums && files == checksums + {CHECKSUM_SOURCE}
  {
    var extra := files - checksums;
    assert |extra| == |files| - |checksums| == 1;
    var source :| source in extra;
    assert source == CHECKSUM_SOURCE;
  }

  // ---------------------------------------------------------------- from generation to validation

  ghost predicate AllTrack(text: Text, files: seq<SourceFile>, entries: seq<Entry>) {
    forall i :: 0 <= i < |entries| ==> Printable(text, entries[i]) && Tracks(text, files, entries[i])
  }

  lemma TracksInLonger(text: Text, head: SourceFile, tail: seq<SourceFile>, entries: seq<Entry>)
    requires AllTrack(text, tail, entries)
    ensures AllTrack(text, [head] + tail, entries)
  {
    forall i | 0 <= i < |entries| ensures Printable(text, entries[i]) && Tracks(text, [head] + tail, entries[i]) {
      assert Tracks(text, tail, entries[i]);
      var k :| 0 <= k < |tail| && entries[i] == Entry(tail[k].source, text.digest(tail[k].bytes));
      assert ([head] + tail)[k + 1] == tail[k];
    }
  }

  lemma {:induction false} EntriesTrackFiles(text: Text, files: seq<SourceFile>)
    requires TextLaws(text) && forall i :: 0 <= i < |files| ==> ValidSource(text, files[i].source)
    ensures AllTrack(text, files, EntriesOf(text, files))
    decreases |files|
  {
    if files != [] {
      EntriesTrackFiles(text, files[1..]);
      TracksInLonger(text, files[0], files[1..], EntriesOf(text, files[1..]));
      assert files == [files[0]] + files[1..];
      assert files[0].source != CHECKSUM_SOURCE ==> Tracks(text, files, Entry(files[0].source, text.digest(files[0].bytes)));
    }
  }

  lemma {:induction false} EntriesFollowFiles(text: Text, files: seq<SourceFile>)
    requires TextLaws(text) && SourcesAscend(files)
    requires forall i :: 0 <= i < |files| ==> ValidSource(text, files[i].source)
    ensures EntriesAscend(EntriesOf(text, files))
    decreases |files|
  {
    if files != [] {
      var tail := files[1..];
      EntriesFollowFiles(text, tail);
      EntriesTrackFiles(text, tail);
      var entries := EntriesOf(text, tail);
      forall i | 0 <= i < |entries| ensures Less(files[0].source, entries[i].source) {
        assert Printable(text, entries[i]) && Tracks(text, tail, entries[i]);
        var k :| 0 <= k < |tail| && entries[i] == Entry(tail[k].source, text.digest(tail[k].bytes));
        assert files[k + 1] == tail[k];
      }
    }
  }

  lemma {:induction false} EntryOfFile(text: Text, files: seq<SourceFile>, i: nat)
    requires i < |files| && files[i].source != CHECKSUM_SOURCE
    ensures Entry(files[i].source, text.digest(files[i].bytes)) in EntriesOf(text, files)
    decreases |files|
  {
    if i > 0 { EntryOfFile(text, files[1..], i - 1); }
  }

  ghost predicate Tracks(text: Text, files: seq<SourceFile>, entry: Entry) {
    exists k :: 0 <= k < |files| && entry == Entry(files[k].source, text.digest(files[k].bytes))
  }

  lemma {:induction false} DigestOfEntry(entries: seq<Entry>, known: map<string, string>, i: nat)
    requires EntriesAscend(entries) && i < |entries|
    ensures entries[i].source in Digests(entries, known) && Digests(entries, known)[entries[i].source] == entries[i].digest
    decreases |entries|
  {
    if i == 0 {
      DigestStays(entries[1..], known[entries[0].source := entries[0].digest], entries[0].source);
    } else {
      DigestOfEntry(entries[1..], known[entries[0].source := entries[0].digest], i - 1);
    }
  }

  lemma {:induction false} DigestStays(entries: seq<Entry>, known: map<string, string>, source: string)
    requires source in known && forall i :: 0 <= i < |entries| ==> Less(source, entries[i].source)
    ensures source in Digests(entries, known) && Digests(entries, known)[source] == known[source]
    decreases |entries|
  {
    if entries != [] {
      LessIrreflexive(source);
      DigestStays(entries[1..], known[entries[0].source := entries[0].digest], source);
    }
  }

  /** The embedded files are the generated ones by source and digest, besides the inventory. */
  ghost predicate SameAssets(text: Text, sorted: seq<SourceFile>, embedded: map<string, Bytes>) {
    && (forall source :: source in embedded <==> source == CHECKSUM_SOURCE || HasSource(sorted, source))
    && (forall k :: 0 <= k < |sorted| && sorted[k].source != CHECKSUM_SOURCE ==>
          sorted[k].source in embedded && text.digest(embedded[sorted[k].source]) == text.digest(sorted[k].bytes))
  }

  ghost predicate HasSource(files: seq<SourceFile>, source: string) {
    exists k :: 0 <= k < |files| && files[k].source == source
  }

  ghost predicate Records(text: Text, sorted: seq<SourceFile>, checksums: map<string, string>) {
    && (forall source :: source in checksums <==> source != CHECKSUM_SOURCE && HasSource(sorted, source))
    && (forall k :: 0 <= k < |sorted| && sorted[k].source != CHECKSUM_SOURCE ==>
          sorted[k].source in checksums && checksums[sorted[k].source] == text.digest(sorted[k].bytes))
  }

  lemma MatchesMeans(text: Text, sorted: seq<SourceFile>, embedded: map<string, Bytes>, checksums: map<string, string>)
    requires Records(text, sorted, checksums)
    ensures Matches(text, embedded, checksums) <==> SameAssets(text, sorted, embedded)
  {
  }

  lemma PlainSources(text: Text, sorted: seq<SourceFile>)
    requires TextLaws(text)
    requires forall i :: 0 <= i < |sorted| ==> ValidSource(text, sorted[i].source) && '\n' !in sorted[i].source
    ensures forall i :: 0 <= i < |EntriesOf(text, sorted)| ==> '\n' !in EntriesOf(text, sorted)[i].source
  {
    EntriesTrackFiles(text, sorted);
  }

  /** An inventory generated from newline-free canonical sources is parsed, and the parsed inventory
      accepts exactly the file sets with the same sources and the same digests. */
  lemma GeneratedInventoryIsExact(text: Text, sorted: seq<SourceFile>, embedded: map<string, Bytes>)
    requires TextLaws(text) && SourcesAscend(sorted)
    requires forall i :: 0 <= i < |sorted| ==> ValidSource(text, sorted[i].source) && '\n' !in sorted[i].source
    requires EntriesOf(text, sorted) != []
    ensures Parse(text, Inventory(EntriesOf(text, sorted))).Ok?
    ensures Matches(text, embedded, Parse(text, Inventory(EntriesOf(text, sorted))).value) <==>
              SameAssets(text, sorted, embedded)
  {
    var entries := EntriesOf(text, sorted);
    EntriesTrackFiles(text, sorted);
    EntriesFollowFiles(text, sorted);
    PlainSources(text, sorted);
    InventoryParses(text, entries);
    ChecksumsOfFiles(text, sorted);
    MatchesMeans(text, sorted, embedded, Digests(entries, map[]));
  }

  lemma ChecksumsOfFiles(text: Text, sorted: seq<SourceFile>)
    requires TextLaws(text) && SourcesAscend(sorted)
    requires forall i :: 0 <= i < |sorted| ==> ValidSource(text, sorted[i].source)
    ensures Records(text, sorted, Digests(EntriesOf(text, sorted), map[]))
  {
    var entries := EntriesOf(text, sorted);
    EntriesTrackFiles(text, sorted);
    EntriesFollowFiles(text, sorted);
    DigestsNonempty(entries, map[]);
    forall k | 0 <= k < |sorted| && sorted[k].source != CHECKSUM_SOURCE
      ensures var checksums := Digests(entries, map[]);
              sorted[k].source in checksums && checksums[sorted[k].source] == text.digest(sorted[k].bytes)
    {
      EntryOfFile(text, sorted, k);
      var i :| 0 <= i < |entries| && entries[i] == Entry(sorted[k].source, text.digest(sorted[k].bytes));
      DigestOfEntry(entries, map[], i);
    }
    forall source | source in Digests(entries, map[])
      ensures source != CHECKSUM_SOURCE && HasSource(sorted, source)
    {
      var i :| 0 <= i < |entries| && entries[i].source == source;
      assert Printable(text, entries[i]) && Tracks(text, sorted, entries[i]);
    }
  }
}
