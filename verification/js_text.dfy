/**
 * The string operations of JavaScript that the pages rely on, over `string = seq<char>`:
 * `String.prototype.split` and `Array.prototype.join` on a one-character separator,
 * `String.prototype.trim`, and `toLowerCase` restricted to ASCII letters.
 */
module JsText {

  /** The characters `trim` removes: ECMAScript WhiteSpace and LineTerminator code points. */
  predicate IsSpace(c: char) {
    var k := c as int;
    k == 0x09 || k == 0x0A || k == 0x0B || k == 0x0C || k == 0x0D || k == 0x20 || k == 0xA0
    || k == 0x1680 || (0x2000 <= k <= 0x200A) || k == 0x2028 || k == 0x2029 || k == 0x202F
    || k == 0x205F || k == 0x3000 || k == 0xFEFF
  }

  /** Every character is white space (the empty string included). */
  predicate Blank(s: string) {
    forall i :: 0 <= i < |s| ==> IsSpace(s[i])
  }

  /** `s.trimStart()`: the suffix left after dropping leading white space. */
  function TrimStart(s: string): (r: string)
    ensures |r| <= |s| && r == s[|s| - |r|..]
    ensures forall i :: 0 <= i < |s| - |r| ==> IsSpace(s[i])
    ensures r == [] || !IsSpace(r[0])
    decreases |s|
  {
    if |s| > 0 && IsSpace(s[0]) then TrimStart(s[1..]) else s
  }

  /** `s.trimEnd()`: the prefix left after dropping trailing white space. */
  function TrimEnd(s: string): (r: string)
    ensures |r| <= |s| && r == s[..|r|]
    ensures forall i :: |r| <= i < |s| ==> IsSpace(s[i])
    ensures r == [] || !IsSpace(r[|r| - 1])
    decreases |s|
  {
    if |s| > 0 && IsSpace(s[|s| - 1]) then TrimEnd(s[..|s| - 1]) else s
  }

  /**
   * `s.trim()`: `s` less its leading and trailing white space. The result is empty exactly
   * when `s` is blank; otherwise it starts and ends with a non-space character.
   */
  function Trim(s: string): (r: string)
    ensures exists i, j :: 0 <= i <= j <= |s| && r == s[i..j] && Blank(s[..i]) && Blank(s[j..])
    ensures r == [] <==> Blank(s)
    ensures r != [] ==> !IsSpace(r[0]) && !IsSpace(r[|r| - 1])
  {
    var t := TrimStart(s);
    var r := TrimEnd(t);
    var i := |s| - |t|;
    assert r == s[i..i + |r|];
    assert Blank(s[..i]);
    assert Blank(s[i + |r|..]);
    r
  }

  /**
   * `xs.join(sep)` for a one-character separator: the elements with `sep` between
   * neighbours; the empty list joins to the empty string.
   */
  function Join(xs: seq<string>, sep: char): string
    decreases |xs|
  {
    if |xs| == 0 then []
    else if |xs| == 1 then xs[0]
    else xs[0] + [sep] + Join(xs[1..], sep)
  }

  /**
   * `s.split(sep)` for a one-character separator. Like JavaScript, the result is never
   * empty (`"".split("\n")` is `[""]`), no piece contains the separator, and joining the
   * pieces gives `s` back.
   */
  function Split(s: string, sep: char): (r: seq<string>)
    ensures |r| >= 1
    ensures forall i :: 0 <= i < |r| ==> sep !in r[i]
    ensures Join(r, sep) == s
    decreases |s|
  {
    if s == [] then [[]]
    else
      var rest := Split(s[1..], sep);
      if s[0] == sep then
        var r := [[]] + rest;
        assert r[1..] == rest;
        assert s == [sep] + s[1..];
        r
      else
        var r := [[s[0]] + rest[0]] + rest[1..];
        assert r[1..] == rest[1..];
        assert s == [s[0]] + s[1..];
        r
  }

  /** Joining a list whose head starts with `c` is `c` followed by the join of the rest. */
  lemma JoinHead(xs: seq<string>, sep: char)
    requires |xs| >= 1 && |xs[0]| >= 1
    ensures Join(xs, sep) == [xs[0][0]] + Join([xs[0][1..]] + xs[1..], sep)
  {
    var ys := [xs[0][1..]] + xs[1..];
    assert ys[1..] == xs[1..];
    assert xs[0] == [xs[0][0]] + xs[0][1..];
  }

  /**
   * The other half of the round trip: splitting a joined list gives the list back, provided
   * the list is not empty and no element contains the separator.
   */
  lemma {:induction false} SplitJoin(xs: seq<string>, sep: char)
    requires |xs| >= 1
    requires forall i :: 0 <= i < |xs| ==> sep !in xs[i]
    ensures Split(Join(xs, sep), sep) == xs
    decreases |xs|, |xs[0]|
  {
    var s := Join(xs, sep);
    if xs[0] == [] {
      if |xs| > 1 {
        SplitJoin(xs[1..], sep);
        assert s == [sep] + Join(xs[1..], sep);
        assert s[1..] == Join(xs[1..], sep);
        assert xs == [[]] + xs[1..];
      }
    } else {
      var c := xs[0][0];
      var ys := [xs[0][1..]] + xs[1..];
      assert forall i :: 0 <= i < |ys| ==> sep !in ys[i] by {
        forall i | 0 <= i < |ys| ensures sep !in ys[i] {
          if i == 0 {
            assert xs[0] == [c] + ys[0];
          } else {
            assert ys[i] == xs[i];
          }
        }
      }
      SplitJoin(ys, sep);
      JoinHead(xs, sep);
      assert s == [c] + Join(ys, sep);
      assert s[1..] == Join(ys, sep);
      assert c != sep by { assert c in xs[0]; }
      assert xs[0] == [c] + ys[0];
      assert ys[1..] == xs[1..];
      assert xs == [[c] + ys[0]] + ys[1..];
    }
  }

  /** `xs.filter(keep)` on strings: some of the elements of `xs`, all of them accepted. */
  function Filter(xs: seq<string>, keep: string -> bool): (r: seq<string>)
    ensures |r| <= |xs|
    ensures forall i :: 0 <= i < |r| ==> keep(r[i]) && r[i] in xs
    decreases |xs|
  {
    if xs == [] then []
    else (if keep(xs[0]) then [xs[0]] else []) + Filter(xs[1..], keep)
  }

  /** Filtering keeps each accepted element exactly as often as it occurs, and no other. */
  lemma {:induction false} FilterCounts(xs: seq<string>, keep: string -> bool)
    ensures forall x :: multiset(Filter(xs, keep))[x] == if keep(x) then multiset(xs)[x] else 0
    decreases |xs|
  {
    if xs != [] {
      FilterCounts(xs[1..], keep);
      assert xs == [xs[0]] + xs[1..];
    }
  }

  /** Filtering keeps order: it distributes over concatenation. */
  lemma {:induction false} FilterAppend(xs: seq<string>, ys: seq<string>, keep: string -> bool)
    ensures Filter(xs + ys, keep) == Filter(xs, keep) + Filter(ys, keep)
    decreases |xs|
  {
    if xs == [] {
      assert xs + ys == ys;
    } else {
      assert (xs + ys)[1..] == xs[1..] + ys;
      FilterAppend(xs[1..], ys, keep);
    }
  }

  /** A list all of whose elements are accepted is its own filtering. */
  lemma {:induction false} FilterKeepsAll(xs: seq<string>, keep: string -> bool)
    requires forall i :: 0 <= i < |xs| ==> keep(xs[i])
    ensures Filter(xs, keep) == xs
    decreases |xs|
  {
    if xs != [] {
      FilterKeepsAll(xs[1..], keep);
    }
  }

  /** Filtering by a weaker test first changes nothing when a stronger test follows. */
  lemma {:induction false} FilterNarrows(xs: seq<string>, weak: string -> bool, strong: string -> bool)
    requires forall x :: strong(x) ==> weak(x)
    ensures Filter(Filter(xs, weak), strong) == Filter(xs, strong)
    decreases |xs|
  {
    if xs != [] {
      var head := if weak(xs[0]) then [xs[0]] else [];
      var tail := Filter(xs[1..], weak);
      assert Filter(xs, weak) == head + tail;
      FilterAppend(head, tail, strong);
      FilterNarrows(xs[1..], weak, strong);
      assert Filter(head, strong) == (if strong(xs[0]) then [xs[0]] else []) by {
        if weak(xs[0]) {
          assert head[1..] == [];
        }
      }
    }
  }

  /** The ASCII case mapping of `toLowerCase`. */
  function LowerChar(c: char): char {
    if 'A' <= c <= 'Z' then (c as int + 32) as char else c
  }

  /** `s.toLowerCase()` with only the ASCII letters mapped. */
  function ToLower(s: string): (r: string)
    ensures |r| == |s|
    ensures forall i :: 0 <= i < |s| ==> r[i] == LowerChar(s[i])
    decreases |s|
  {
    if s == [] then [] else [LowerChar(s[0])] + ToLower(s[1..])
  }

  /** Two strings are equal up to ASCII case. */
  predicate EqualIgnoringCase(a: string, b: string) {
    |a| == |b| && forall i :: 0 <= i < |a| ==> LowerChar(a[i]) == LowerChar(b[i])
  }

  /** Comparing lower-cased strings is comparing up to case. */
  lemma ToLowerEqualIffEqualIgnoringCase(a: string, b: string)
    ensures ToLower(a) == ToLower(b) <==> EqualIgnoringCase(a, b)
  {
    if EqualIgnoringCase(a, b) {
      assert forall i :: 0 <= i < |a| ==> ToLower(a)[i] == ToLower(b)[i];
    }
    if ToLower(a) == ToLower(b) {
      assert forall i :: 0 <= i < |a| ==> LowerChar(a[i]) == ToLower(a)[i];
    }
  }
}
