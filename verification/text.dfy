/** The string operations the components use: ASCII `toLowerCase` and
    `toUpperCase`, `includes`, `trim`, `split` on one character and `join`. */
module Text {

  /** `toLowerCase` restricted to ASCII letters. */
  function LowerChar(c: char): char {
    if 'A' <= c <= 'Z' then (c as int + 32) as char else c
  }

  function Lower(s: string): (r: string)
    ensures |r| == |s|
    ensures forall i :: 0 <= i < |s| ==> r[i] == LowerChar(s[i])
  {
    seq(|s|, i requires 0 <= i < |s| => LowerChar(s[i]))
  }

  /** `toUpperCase` restricted to ASCII letters. */
  function UpperChar(c: char): char {
    if 'a' <= c <= 'z' then (c as int - 32) as char else c
  }

  function Upper(s: string): (r: string)
    ensures |r| == |s|
    ensures forall i :: 0 <= i < |s| ==> r[i] == UpperChar(s[i])
  {
    seq(|s|, i requires 0 <= i < |s| => UpperChar(s[i]))
  }

  /** `t` occurs in `s` starting at position `i`. */
  predicate OccursAt(s: string, t: string, i: int) {
    0 <= i && i + |t| <= |s| && s[i..i + |t|] == t
  }

  /** `s.includes(t)`: `t` occurs in `s` at some position. */
  predicate Includes(s: string, t: string) {
    exists i | 0 <= i <= |s| - |t| :: OccursAt(s, t, i)
  }

  /** The characters `String.prototype.trim` strips: white space and line
      terminators. */
  predicate IsSpace(c: char) {
    c in {' ', '\t', '\n', '\r', '\U{000B}', '\U{000C}', '\U{00A0}', '\U{1680}',
          '\U{2000}', '\U{2001}', '\U{2002}', '\U{2003}', '\U{2004}', '\U{2005}',
          '\U{2006}', '\U{2007}', '\U{2008}', '\U{2009}', '\U{200A}', '\U{2028}',
          '\U{2029}', '\U{202F}', '\U{205F}', '\U{3000}', '\U{FEFF}'}
  }

  function TrimStart(s: string): string
  {
    if |s| > 0 && IsSpace(s[0]) then TrimStart(s[1..]) else s
  }

  function TrimEnd(s: string): string
  {
    if |s| > 0 && IsSpace(s[|s| - 1]) then TrimEnd(s[..|s| - 1]) else s
  }

  /** `s.trim()`. */
  function Trim(s: string): string
  {
    TrimEnd(TrimStart(s))
  }

  /** `TrimStart` drops a run of white space from the front and stops at
      the first other character. */
  lemma {:induction false} TrimStartShape(s: string)
    ensures |TrimStart(s)| <= |s| && TrimStart(s) == s[|s| - |TrimStart(s)|..]
    ensures TrimStart(s) == [] || !IsSpace(TrimStart(s)[0])
    ensures forall i :: 0 <= i < |s| - |TrimStart(s)| ==> IsSpace(s[i])
  {
    if |s| > 0 && IsSpace(s[0]) {
      TrimStartShape(s[1..]);
    }
  }

  /** `TrimEnd` drops a run of white space from the back and stops at the
      last other character. */
  lemma {:induction false} TrimEndShape(s: string)
    ensures |TrimEnd(s)| <= |s| && TrimEnd(s) == s[..|TrimEnd(s)|]
    ensures TrimEnd(s) == [] || !IsSpace(TrimEnd(s)[|TrimEnd(s)| - 1])
    ensures forall i :: |TrimEnd(s)| <= i < |s| ==> IsSpace(s[i])
  {
    if |s| > 0 && IsSpace(s[|s| - 1]) {
      TrimEndShape(s[..|s| - 1]);
    }
  }

  /** `trim` keeps a contiguous piece of its input that neither starts nor
      ends with white space. */
  lemma TrimShape(s: string)
    ensures Trim(s) == [] || (!IsSpace(Trim(s)[0]) && !IsSpace(Trim(s)[|Trim(s)| - 1]))
    ensures Includes(s, Trim(s))
  {
    var u := TrimStart(s);
    TrimStartShape(s);
    TrimEndShape(u);
    var r := TrimEnd(u);
    var i := |s| - |u|;
    assert OccursAt(s, r, i);
  }

  /** Trimming twice is trimming once. */
  lemma TrimIdempotent(s: string)
    ensures Trim(Trim(s)) == Trim(s)
  {
    TrimShape(s);
  }

  /** Every character of `s.trim()` is a character of `s`. */
  lemma TrimKeepsCharacters(s: string, c: char)
    requires c in Trim(s)
    ensures c in s
  {
    TrimShape(s);
    var i :| 0 <= i <= |s| - |Trim(s)| && OccursAt(s, Trim(s), i);
    var k :| 0 <= k < |Trim(s)| && Trim(s)[k] == c;
    assert s[i + k] == c;
  }

  /** `parts.map(p => p.trim())`. */
  function TrimEach(parts: seq<string>): (r: seq<string>)
    ensures |r| == |parts|
    ensures forall i :: 0 <= i < |parts| ==> r[i] == Trim(parts[i])
  {
    seq(|parts|, i requires 0 <= i < |parts| => Trim(parts[i]))
  }

  /** `s.split(sep)` for a one-character separator: at least one piece, and
      no piece contains the separator. */
  function Split(s: string, sep: char): (r: seq<string>)
    ensures |r| >= 1
    ensures forall i :: 0 <= i < |r| ==> sep !in r[i]
  {
    if s == [] then [""]
    else
      var rest := Split(s[1..], sep);
      if s[0] == sep then [""] + rest
      else [[s[0]] + rest[0]] + rest[1..]
  }

  /** `parts.join(sep)`. */
  function Join(parts: seq<string>, sep: string): string {
    if |parts| == 0 then ""
    else if |parts| == 1 then parts[0]
    else parts[0] + sep + Join(parts[1..], sep)
  }

  /** Joining the pieces of a split with the same separator gives back the
      original string. */
  lemma {:induction false} JoinSplit(s: string, sep: char)
    ensures Join(Split(s, sep), [sep]) == s
  {
    if s != [] {
      var rest := Split(s[1..], sep);
      JoinSplit(s[1..], sep);
      if s[0] == sep {
        assert Split(s, sep) == [""] + rest;
        assert ([""] + rest)[1..] == rest;
        assert s == [sep] + s[1..];
      } else {
        var r := [[s[0]] + rest[0]] + rest[1..];
        assert Split(s, sep) == r;
        if |rest| == 1 {
          assert Join(rest, [sep]) == rest[0];
        } else {
          assert Join(rest, [sep]) == rest[0] + [sep] + Join(rest[1..], [sep]);
          assert r[1..] == rest[1..];
        }
      }
    }
  }

  /** A piece free of the separator splits to itself. */
  lemma {:induction false} SplitSeparatorFree(s: string, sep: char)
    requires sep !in s
    ensures Split(s, sep) == [s]
  {
    if s != [] {
      SplitSeparatorFree(s[1..], sep);
      assert [s[0]] + s[1..] == s;
    }
  }

  /** A separator-free head followed by the separator splits off as the
      first piece. */
  lemma {:induction false} SplitAfterHead(a: string, sep: char, t: string)
    requires sep !in a
    ensures Split(a + [sep] + t, sep) == [a] + Split(t, sep)
  {
    if a == [] {
      assert a + [sep] + t == [sep] + t;
      assert ([sep] + t)[1..] == t;
    } else {
      var s := a + [sep] + t;
      assert s[1..] == a[1..] + [sep] + t;
      SplitAfterHead(a[1..], sep, t);
      assert [a[0]] + a[1..] == a;
    }
  }

  /** Splitting `parts.join(sep)` on `sep` gives back `parts` when no part
      holds the separator. */
  lemma {:induction false} SplitJoin(parts: seq<string>, sep: char)
    requires |parts| >= 1
    requires forall i :: 0 <= i < |parts| ==> sep !in parts[i]
    ensures Split(Join(parts, [sep]), sep) == parts
  {
    if |parts| == 1 {
      SplitSeparatorFree(parts[0], sep);
    } else {
      SplitJoin(parts[1..], sep);
      SplitAfterHead(parts[0], sep, Join(parts[1..], [sep]));
      assert [parts[0]] + parts[1..] == parts;
    }
  }

  /** Leading white space does not survive `trim`. */
  lemma TrimSkipsLeadingSpace(p: string)
    ensures Trim(" " + p) == Trim(p)
  {
    assert (" " + p)[1..] == p;
  }

  /** The pieces of `x`, separator, space, `j`: `x` first, then the pieces
      of `j` with the space glued to the first of them. */
  lemma SplitSpacedTail(x: string, sep: char, j: string)
    requires sep !in x && sep != ' '
    ensures Split(x + [sep] + (" " + j), sep)
         == [x] + ([" " + Split(j, sep)[0]] + Split(j, sep)[1..])
  {
    SplitAfterHead(x, sep, " " + j);
    assert (" " + j)[1..] == j;
  }

  /** Trimming the pieces `x`, `" " + rest[0]`, `rest[1..]` gives `x`
      followed by the trimmed `rest`. */
  lemma TrimPieces(x: string, rest: seq<string>)
    requires |rest| >= 1
    requires Trim(x) == x
    ensures TrimEach([x] + ([" " + rest[0]] + rest[1..])) == [x] + TrimEach(rest)
  {
    TrimSkipsLeadingSpace(rest[0]);
    var pieces := [x] + ([" " + rest[0]] + rest[1..]);
    var out := TrimEach(pieces);
    var want := [x] + TrimEach(rest);
    assert |out| == |want|;
    forall i | 0 <= i < |out|
      ensures out[i] == want[i]
    {
      if i >= 2 {
        assert pieces[i] == rest[i - 1];
      }
    }
  }

  /** A part that `trim` leaves alone and that holds no separator. */
  predicate Clean(p: string, sep: char) {
    Trim(p) == p && sep !in p
  }

  /** Splitting `parts.join(sep + " ")` on `sep` and trimming every piece
      gives back `parts`, provided there is at least one part and every part
      is already trimmed and free of the separator. */
  lemma {:induction false} SplitTrimJoin(parts: seq<string>, sep: char)
    requires sep != ' '
    requires |parts| >= 1
    requires forall i :: 0 <= i < |parts| ==> Clean(parts[i], sep)
    ensures TrimEach(Split(Join(parts, [sep, ' ']), sep)) == parts
  {
    var x := parts[0];
    assert Clean(x, sep);
    if |parts| == 1 {
      SplitSeparatorFree(x, sep);
    } else {
      var ys := parts[1..];
      var j := Join(ys, [sep, ' ']);
      assert forall i :: 0 <= i < |ys| ==> Clean(ys[i], sep) by {
        assert forall i :: 0 <= i < |ys| ==> ys[i] == parts[i + 1];
      }
      SplitTrimJoin(ys, sep);
      assert Join(parts, [sep, ' ']) == x + [sep] + (" " + j);
      SplitSpacedTail(x, sep, j);
      TrimPieces(x, Split(j, sep));
      assert [x] + ys == parts;
    }
  }
}
