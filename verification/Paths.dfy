/** Slash-separated relative paths and the prefixed UUIDv7 identifiers that occur in them. */
module Paths {
  import opened Prelude

  /** strings.Split on a one-byte separator. */
  function Split(text: string, sep: char): (parts: seq<string>)
    ensures parts != []
    ensures forall i :: 0 <= i < |parts| ==> sep !in parts[i]
  {
    if text == "" then [""]
    else if text[0] == sep then [""] + Split(text[1..], sep)
    else var rest := Split(text[1..], sep); [[text[0]] + rest[0]] + rest[1..]
  }

  function Join(parts: seq<string>, sep: char): string {
    if parts == [] then "" else if |parts| == 1 then parts[0] else parts[0] + [sep] + Join(parts[1..], sep)
  }

  lemma {:induction false} SplitAtom(text: string, sep: char)
    requires sep !in text
    ensures Split(text, sep) == [text]
  {
    if text != "" {
      SplitAtom(text[1..], sep);
      assert text == [text[0]] + text[1..];
    }
  }

  lemma {:induction false} SplitHead(head: string, tail: string, sep: char)
    requires sep !in head
    ensures Split(head + [sep] + tail, sep) == [head] + Split(tail, sep)
  {
    if head == "" {
      assert head + [sep] + tail == [sep] + tail;
    } else {
      assert (head + [sep] + tail)[1..] == head[1..] + [sep] + tail;
      SplitHead(head[1..], tail, sep);
      assert head == [head[0]] + head[1..] && (head + [sep] + tail)[0] == head[0];
      assert ([head[1..]] + Split(tail, sep))[1..] == Split(tail, sep);
    }
  }

  /** Joining the parts of a text gives the text back. */
  lemma {:induction false} JoinSplit(text: string, sep: char)
    ensures Join(Split(text, sep), sep) == text
  {
    if text == "" {
    } else {
      JoinSplit(text[1..], sep);
      var rest := Split(text[1..], sep);
      if text[0] == sep {
        assert Split(text, sep)[1..] == rest;
      } else {
        assert Split(text, sep)[1..] == rest[1..];
      }
      assert text == [text[0]] + text[1..];
    }
  }

  predicate ValidComponent(part: string) {
    part != "" && part != "." && part != ".."
  }

  /** validateSafeRelativePath.  A text that is its own path.Clean and is neither absolute nor a
      dot path is one whose components are all non-empty and none of which is a dot or dotdot. */
  predicate ValidPath(text: string) {
    && text != ""
    && '\0' !in text && '\\' !in text
    && forall i :: 0 <= i < |Split(text, '/')| ==> ValidComponent(Split(text, '/')[i])
  }

  predicate PlainComponent(part: string) {
    ValidComponent(part) && '/' !in part && '\0' !in part && '\\' !in part
  }

  lemma PlainComponentIsPath(part: string)
    requires PlainComponent(part)
    ensures ValidPath(part)
  {
    SplitAtom(part, '/');
  }

  lemma PathUnder(head: string, tail: string)
    requires PlainComponent(head)
    ensures ValidPath(head + "/" + tail) <==> ValidPath(tail)
  {
    SplitHead(head, tail, '/');
    var parts := Split(tail, '/');
    var whole := Split(head + "/" + tail, '/');
    assert whole[0] == head && forall i :: 0 <= i < |parts| ==> whole[i + 1] == parts[i];
    if tail == "" { assert parts[0] == ""; }
    if ValidPath(head + "/" + tail) {
      assert forall c :: c in tail ==> c in head + "/" + tail;
      forall i | 0 <= i < |parts| ensures ValidComponent(parts[i]) { assert whole[i + 1] == parts[i]; }
    }
  }

  predicate IsLowerHex(c: char) {
    '0' <= c <= '9' || 'a' <= c <= 'f'
  }

  predicate AllLowerHex(text: string) {
    forall i :: 0 <= i < |text| ==> IsLowerHex(text[i])
  }

  const ZERO_UUID := "00000000-0000-7000-8000-000000000000"

  predicate ValidUUIDv7(text: string) {
    && |text| == 36
    && (forall i :: 0 <= i < 36 ==> if i == 8 || i == 13 || i == 18 || i == 23 then text[i] == '-' else IsLowerHex(text[i]))
    && text[14] == '7'
    && text[19] in "89ab"
    && text != ZERO_UUID
  }

  predicate ValidPrefixedUUIDv7(text: string, prefix: string) {
    HasPrefix(text, prefix) && ValidUUIDv7(text[|prefix|..])
  }

  predicate ValidSessionID(text: string) { ValidPrefixedUUIDv7(text, "s_") }

  predicate ValidRunID(text: string) { ValidPrefixedUUIDv7(text, "r_") }

  predicate ValidReviewID(text: string) { ValidUUIDv7(text) }

  predicate PlainCharacter(c: char) {
    IsLowerHex(c) || c == '-' || c == '_' || 'a' <= c <= 'z'
  }

  lemma UUIDCharacters(text: string)
    requires ValidUUIDv7(text)
    ensures forall c :: c in text ==> PlainCharacter(c)
  {
  }

  lemma IdentifierIsPlainComponent(text: string, prefix: string)
    requires ValidPrefixedUUIDv7(text, prefix) && prefix in ["s_", "r_", "a_"]
    ensures PlainComponent(text)
  {
    UUIDCharacters(text[2..]);
    assert text == prefix + text[2..];
  }

  /** validateSHA256 */
  predicate ValidSHA256(text: string) {
    HasPrefix(text, "sha256:") && |text| == 71 && AllLowerHex(text[7..])
  }

  // ---------------------------------------------------------------- paths built from components

  ghost predicate PlainComponents(parts: seq<string>) {
    forall i :: 0 <= i < |parts| ==> PlainComponent(parts[i])
  }

  lemma {:induction false} SplitJoin(parts: seq<string>, sep: char)
    requires parts != [] && forall i :: 0 <= i < |parts| ==> sep !in parts[i]
    ensures Split(Join(parts, sep), sep) == parts
  {
    if |parts| == 1 {
      SplitAtom(parts[0], sep);
    } else {
      SplitJoin(parts[1..], sep);
      SplitHead(parts[0], Join(parts[1..], sep), sep);
      assert parts == [parts[0]] + parts[1..];
    }
  }

  lemma {:induction false} JoinAvoids(parts: seq<string>, sep: char, c: char)
    requires c != sep && forall i :: 0 <= i < |parts| ==> c !in parts[i]
    ensures c !in Join(parts, sep)
  {
    if |parts| > 1 { JoinAvoids(parts[1..], sep, c); }
  }

  lemma JoinNonempty(parts: seq<string>, sep: char)
    requires parts != [] && parts[0] != ""
    ensures Join(parts, sep) != ""
  {
  }

  /** Plain components joined by slashes are a valid path and split back into the components. */
  lemma JoinedIsPath(parts: seq<string>)
    requires parts != [] && PlainComponents(parts)
    ensures ValidPath(Join(parts, '/')) && Split(Join(parts, '/'), '/') == parts
  {
    SplitJoin(parts, '/');
    JoinAvoids(parts, '/', '\0');
    JoinAvoids(parts, '/', '\\');
    JoinNonempty(parts, '/');
  }

  lemma JoinInTurn(a: string, rest: seq<string>)
    requires rest != []
    ensures Join([a] + rest, '/') == a + "/" + Join(rest, '/')
  {
    assert ([a] + rest)[1..] == rest;
  }

  lemma JoinOfFew(a: string, b: string, c: string, d: string, e: string)
    ensures Join([a, b, c], '/') == a + "/" + b + "/" + c
    ensures Join([a, b, c, d], '/') == a + "/" + b + "/" + c + "/" + d
    ensures Join([a, b, c, d, e], '/') == a + "/" + b + "/" + c + "/" + d + "/" + e
  {
    JoinInTurn(d, [e]);
    JoinInTurn(c, [d, e]);
    JoinInTurn(b, [c, d, e]);
    JoinInTurn(a, [b, c, d, e]);
    JoinInTurn(c, [d]);
    JoinInTurn(b, [c, d]);
    JoinInTurn(a, [b, c, d]);
    JoinInTurn(b, [c]);
    JoinInTurn(a, [b, c]);
  }

  // ---------------------------------------------------------------- what a valid path is

  /** path.Clean of a relative path, component by component: empty and dot components go, and a
      dotdot takes the component before it along, if there is one to take. */
  function Clean(parts: seq<string>, kept: seq<string>): seq<string>
    decreases |parts|
  {
    if parts == [] then kept
    else if parts[0] == "" || parts[0] == "." then Clean(parts[1..], kept)
    else if parts[0] == ".." && kept != [] && kept[|kept| - 1] != ".." then Clean(parts[1..], kept[..|kept| - 1])
    else Clean(parts[1..], kept + [parts[0]])
  }

  lemma {:induction false} CleanKeeps(parts: seq<string>, kept: seq<string>)
    requires forall i :: 0 <= i < |parts| ==> ValidComponent(parts[i])
    ensures Clean(parts, kept) == kept + parts
    decreases |parts|
  {
    if parts != [] {
      CleanKeeps(parts[1..], kept + [parts[0]]);
      assert kept + [parts[0]] + parts[1..] == kept + parts;
    } else {
      assert kept + parts == kept;
    }
  }

  lemma {:induction false} CleanShrinks(parts: seq<string>, kept: seq<string>)
    ensures |Clean(parts, kept)| <= |kept| + |parts|
    ensures |Clean(parts, kept)| == |kept| + |parts| && kept != [] && kept[|kept| - 1] != ".." ==>
              forall i :: 0 <= i < |parts| ==> ValidComponent(parts[i])
    decreases |parts|
  {
    if parts != [] {
      if parts[0] == "" || parts[0] == "." {
        CleanShrinks(parts[1..], kept);
      } else if parts[0] == ".." && kept != [] && kept[|kept| - 1] != ".." {
        CleanShrinks(parts[1..], kept[..|kept| - 1]);
      } else {
        CleanShrinks(parts[1..], kept + [parts[0]]);
      }
    }
  }

  lemma CleanedIsValid(parts: seq<string>)
    requires parts != [] && Clean(parts, []) == parts && parts[0] != ".."
    ensures forall i :: 0 <= i < |parts| ==> ValidComponent(parts[i])
  {
    CleanShrinks(parts[1..], []);
    CleanShrinks(parts[1..], [parts[0]]);
    assert [] + [parts[0]] == [parts[0]];
  }

  /** The first component of a text is dotdot exactly when the text is dotdot or continues it with a slash. */
  lemma LeavesRoot(text: string)
    ensures Split(text, '/')[0] == ".." <==> text == ".." || HasPrefix(text, "../")
  {
    JoinSplit(text, '/');
    var parts := Split(text, '/');
    if text == ".." { SplitAtom("..", '/'); }
    if HasPrefix(text, "../") {
      SplitHead("..", text[3..], '/');
      assert text == ".." + ['/'] + text[3..];
    }
    if parts[0] == ".." && |parts| > 1 { assert text == ".." + ['/'] + Join(parts[1..], '/'); }
  }

  /** Components are all in order exactly when the text is its own cleaned form and neither begins
      with a slash nor is or leaves through dotdot. */
  lemma ComponentsAreClean(text: string)
    requires text != ""
    ensures (forall i :: 0 <= i < |Split(text, '/')| ==> ValidComponent(Split(text, '/')[i])) <==>
              && text[0] != '/' && Clean(Split(text, '/'), []) == Split(text, '/')
              && text != "." && text != ".." && !HasPrefix(text, "../")
  {
    var parts := Split(text, '/');
    LeavesRoot(text);
    assert text[0] == '/' ==> parts[0] == "";
    if forall i :: 0 <= i < |parts| ==> ValidComponent(parts[i]) {
      CleanKeeps(parts, []);
      assert [] + parts == parts;
    } else if Clean(parts, []) == parts && parts[0] != ".." {
      CleanedIsValid(parts);
    }
  }

  /** The path rules of the source: a non-empty text without NUL or backslash that is its own cleaned
      form and neither begins with a slash nor is or leaves through dotdot. */
  lemma ValidPathsAreClean(text: string)
    ensures ValidPath(text) <==>
              && text != "" && '\0' !in text && '\\' !in text && text[0] != '/'
              && Clean(Split(text, '/'), []) == Split(text, '/')
              && text != "." && text != ".." && !HasPrefix(text, "../")
  {
    if text != "" { ComponentsAreClean(text); }
  }
}
