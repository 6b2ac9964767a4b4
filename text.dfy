/** The two JavaScript string operations the roster parsers are built from:
    `String.prototype.trim` and `String.prototype.split` with a one-character
    separator. */
module Text {

  /** The characters `trim` removes: ECMAScript WhiteSpace (tab, vertical tab,
      form feed, space, no-break space, zero-width no-break space and the
      Unicode space separators) and LineTerminator (line feed, carriage
      return, line and paragraph separators). */
  predicate IsWhitespace(c: char) {
    var n := c as int;
    n == 0x09 || n == 0x0A || n == 0x0B || n == 0x0C || n == 0x0D || n == 0x20
    || n == 0xA0 || n == 0x1680 || (0x2000 <= n <= 0x200A) || n == 0x2028
    || n == 0x2029 || n == 0x202F || n == 0x205F || n == 0x3000 || n == 0xFEFF
  }

  ghost predicate AllWhitespace(s: string) {
    forall i :: 0 <= i < |s| ==> IsWhitespace(s[i])
  }

  /** Neither end of `s` is whitespace. */
  predicate Clean(s: string) {
    s == [] || (!IsWhitespace(s[0]) && !IsWhitespace(s[|s| - 1]))
  }

  /** The length of the whitespace run that starts `s`. */
  function LeadingSpace(s: string): (n: nat)
    ensures n <= |s|
    ensures AllWhitespace(s[..n])
    ensures n < |s| ==> !IsWhitespace(s[n])
  {
    if s == [] || !IsWhitespace(s[0]) then 0 else 1 + LeadingSpace(s[1..])
  }

  /** The length of the whitespace run that ends `s`. */
  function TrailingSpace(s: string): (n: nat)
    ensures n <= |s|
    ensures AllWhitespace(s[|s| - n..])
    ensures n < |s| ==> !IsWhitespace(s[|s| - 1 - n])
  {
    if s == [] || !IsWhitespace(s[|s| - 1]) then 0 else 1 + TrailingSpace(s[..|s| - 1])
  }

  /** `s.trim()`: a clean string no longer than `s`, made of its characters. */
  function Trim(s: string): (t: string)
    ensures Clean(t)
    ensures |t| <= |s|
    ensures forall c :: c in t ==> c in s
  {
    var a := LeadingSpace(s);
    if a == |s| then []
    else s[a..|s| - TrailingSpace(s[a..])]
  }

  /** `s` is `s.trim()` padded on both sides with whitespace only. */
  lemma TrimPads(s: string)
    ensures var t := Trim(s);
      exists i :: 0 <= i <= |s| - |t| && s[i..i + |t|] == t
                  && AllWhitespace(s[..i]) && AllWhitespace(s[i + |t|..])
  {
    var a := LeadingSpace(s);
    var t := Trim(s);
    if a == |s| {
      assert s[0..0] == t && s[..0] == [] && s[0..] == s;
    } else {
      var b := TrailingSpace(s[a..]);
      assert s[a..a + |t|] == t;
      assert s[a + |t|..] == s[a..][|s[a..]| - b..];
    }
  }

  /** Trimming a clean string changes nothing. */
  lemma TrimClean(s: string)
    requires Clean(s)
    ensures Trim(s) == s
  {
  }

  /** `trim` is idempotent. */
  lemma TrimIdempotent(s: string)
    ensures Trim(Trim(s)) == Trim(s)
  {
    TrimClean(Trim(s));
  }

  /** `parts.join(sep)`. */
  function Join(parts: seq<string>, sep: char): (s: string)
  {
    if |parts| == 0 then []
    else if |parts| == 1 then parts[0]
    else parts[0] + [sep] + Join(parts[1..], sep)
  }

  ghost predicate Free(parts: seq<string>, sep: char) {
    forall i :: 0 <= i < |parts| ==> sep !in parts[i]
  }

  /** `s.split(sep)`: the pieces between the occurrences of `sep`. There is
      always at least one piece (`"".split(sep)` is `[""]`), more than one
      exactly when `sep` occurs, no piece holds `sep`, and joining the
      pieces with `sep` gives `s` back. */
  function Split(s: string, sep: char): (parts: seq<string>)
    ensures |parts| >= 1
    ensures |parts| == 1 <==> sep !in s
    ensures Free(parts, sep)
    ensures Join(parts, sep) == s
  {
    if s == [] then [[]]
    else
      var rest := Split(s[1..], sep);
      if s[0] == sep then
        var parts := [[]] + rest;
        assert parts[1..] == rest;
        assert s == [sep] + s[1..];
        parts
      else
        var parts := [[s[0]] + rest[0]] + rest[1..];
        assert s == [s[0]] + s[1..];
        assert sep in s ==> sep in s[1..];
        if |rest| == 1 then parts
        else
          assert parts[1..] == rest[1..];
          assert Join(rest, sep) == rest[0] + [sep] + Join(rest[1..], sep);
          parts
  }

  /** In a join of separator-free pieces, the separator occurs exactly when
      there are two pieces or more, and the first one sits right after the
      first piece. */
  lemma JoinHead(parts: seq<string>, sep: char)
    requires |parts| >= 1 && Free(parts, sep)
    ensures |parts| == 1 ==> sep !in Join(parts, sep)
    ensures |parts| >= 2 ==>
      && |Join(parts, sep)| > |parts[0]|
      && Join(parts, sep)[..|parts[0]|] == parts[0]
      && Join(parts, sep)[|parts[0]|] == sep
      && Join(parts, sep)[|parts[0]| + 1..] == Join(parts[1..], sep)
  {
    if |parts| >= 2 {
      var s := Join(parts, sep);
      assert s == parts[0] + [sep] + Join(parts[1..], sep);
    }
  }

  /** A join of separator-free pieces determines the pieces. */
  lemma {:induction false} JoinInjective(a: seq<string>, b: seq<string>, sep: char)
    requires |a| >= 1 && |b| >= 1 && Free(a, sep) && Free(b, sep)
    requires Join(a, sep) == Join(b, sep)
    ensures a == b
  {
    var s := Join(a, sep);
    JoinHead(a, sep);
    JoinHead(b, sep);
    if |a| >= 2 {
      assert |b| >= 2;
      assert forall i :: 0 <= i < |a[0]| ==> s[i] == a[0][i];
      assert forall i :: 0 <= i < |b[0]| ==> s[i] == b[0][i];
      assert |a[0]| == |b[0]|;
      assert a[0] == b[0];
      JoinInjective(a[1..], b[1..], sep);
      assert a == [a[0]] + a[1..] && b == [b[0]] + b[1..];
    }
  }

  /** Splitting a join of separator-free pieces gives the pieces back. */
  lemma SplitJoin(parts: seq<string>, sep: char)
    requires |parts| >= 1 && Free(parts, sep)
    ensures Split(Join(parts, sep), sep) == parts
  {
    JoinInjective(Split(Join(parts, sep), sep), parts, sep);
  }

  /** `doc.trim().split("\n")`: the lines of a document, none holding a
      newline, whose join by "\n" is the trimmed document. */
  function Lines(doc: string): (lines: seq<string>)
    ensures |lines| >= 1 && Free(lines, '\n')
    ensures Join(lines, '\n') == Trim(doc)
  {
    Split(Trim(doc), '\n')
  }
}
