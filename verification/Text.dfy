/**
 * Text as rune sequences, with the operations of Go's `strings` and `unicode`
 * packages that the parsers call.
 */
module Text {

  /** `unicode.IsSpace`. */
  predicate IsSpace(c: char) {
    || c == ' ' || '\t' <= c <= '\r' || c == '\U{85}' || c == '\U{A0}' || c == '\U{1680}'
    || '\U{2000}' <= c <= '\U{200A}' || c == '\U{2028}' || c == '\U{2029}' || c == '\U{202F}'
    || c == '\U{205F}' || c == '\U{3000}'
  }

  predicate Blank(s: string) {
    forall i :: 0 <= i < |s| ==> IsSpace(s[i])
  }

  function TrimLeft(s: string): string {
    if s != [] && IsSpace(s[0]) then TrimLeft(s[1..]) else s
  }

  function TrimRight(s: string): string {
    if s != [] && IsSpace(s[|s| - 1]) then TrimRight(s[..|s| - 1]) else s
  }

  /** `strings.TrimSpace`. */
  function TrimSpace(s: string): string {
    TrimRight(TrimLeft(s))
  }

  /** Starts and ends with a rune that is not white space. */
  predicate Trimmed(s: string) {
    s != [] && !IsSpace(s[0]) && !IsSpace(s[|s| - 1])
  }

  /** `strings.Split(s, sep)` for a one-rune separator. */
  function Split(s: string, sep: char): (parts: seq<string>)
    ensures |parts| >= 1
  {
    if s == [] then [[]]
    else
      var rest := Split(s[1..], sep);
      if s[0] == sep then [[]] + rest else [[s[0]] + rest[0]] + rest[1..]
  }

  /** `strings.Join`. */
  function Join(parts: seq<string>, sep: string): string {
    if parts == [] then []
    else if |parts| == 1 then parts[0]
    else parts[0] + sep + Join(parts[1..], sep)
  }

  function Concat(parts: seq<string>): string {
    if parts == [] then [] else parts[0] + Concat(parts[1..])
  }

  /** Go's `<` on strings; on valid UTF-8 the byte order is the rune order. */
  predicate LexLess(a: string, b: string) {
    b != [] && (a == [] || a[0] < b[0] || (a[0] == b[0] && LexLess(a[1..], b[1..])))
  }

  /** What is left of a text after deleting its white space. */
  function Squeeze(s: string): string {
    if s == [] then []
    else if IsSpace(s[0]) then Squeeze(s[1..])
    else [s[0]] + Squeeze(s[1..])
  }

  /** The runes with the White_Space property, by code point. */
  lemma SpaceRunes(c: char)
    ensures IsSpace(c) <==>
              var u := c as int;
              || 9 <= u <= 13 || u == 32 || u == 0x85 || u == 0xA0 || u == 0x1680 || 0x2000 <= u <= 0x200A
              || u == 0x2028 || u == 0x2029 || u == 0x202F || u == 0x205F || u == 0x3000
  {
  }

  lemma SqueezeOne(c: char)
    ensures Squeeze([c]) == if IsSpace(c) then [] else [c]
  {
    assert [c][1..] == [];
  }

  // ---------------------------------------------------------------- trimming

  lemma {:induction false} TrimLeftSpec(s: string) returns (cut: string)
    ensures s == cut + TrimLeft(s) && Blank(cut)
    ensures TrimLeft(s) != [] ==> !IsSpace(TrimLeft(s)[0])
  {
    if s != [] && IsSpace(s[0]) {
      var rest := TrimLeftSpec(s[1..]);
      cut := [s[0]] + rest;
    } else {
      cut := [];
    }
  }

  lemma {:induction false} TrimRightSpec(s: string) returns (cut: string)
    ensures s == TrimRight(s) + cut && Blank(cut)
    ensures TrimRight(s) != [] ==> !IsSpace(TrimRight(s)[|TrimRight(s)| - 1])
  {
    if s != [] && IsSpace(s[|s| - 1]) {
      var rest := TrimRightSpec(s[..|s| - 1]);
      cut := rest + [s[|s| - 1]];
      assert s == s[..|s| - 1] + [s[|s| - 1]];
    } else {
      cut := [];
    }
  }

  /** TrimSpace removes white space at both ends only, and leaves nothing or a trimmed text. */
  lemma TrimSpaceSpec(s: string) returns (left: string, right: string)
    ensures s == left + TrimSpace(s) + right && Blank(left) && Blank(right)
    ensures TrimSpace(s) != [] ==> Trimmed(TrimSpace(s))
  {
    left := TrimLeftSpec(s);
    right := TrimRightSpec(TrimLeft(s));
  }

  /** The converse: the trimmed middle of a text is what TrimSpace returns. */
  lemma {:induction false} TrimSpaceUnique(left: string, mid: string, right: string)
    requires Blank(left) && Blank(right) && Trimmed(mid)
    ensures TrimSpace(left + mid + right) == mid
  {
    TrimLeftSkips(left, mid + right);
    assert left + mid + right == left + (mid + right);
    TrimRightSkips(mid, right);
  }

  lemma {:induction false} TrimLeftSkips(left: string, s: string)
    requires Blank(left) && s != [] && !IsSpace(s[0])
    ensures TrimLeft(left + s) == s
  {
    if left == [] {
      assert left + s == s;
    } else {
      assert (left + s)[1..] == left[1..] + s;
      TrimLeftSkips(left[1..], s);
    }
  }

  lemma {:induction false} TrimRightSkips(s: string, right: string)
    requires Blank(right) && s != [] && !IsSpace(s[|s| - 1])
    ensures TrimRight(s + right) == s
  {
    if right == [] {
      assert s + right == s;
    } else {
      assert (s + right)[..|s + right| - 1] == s + right[..|right| - 1];
      TrimRightSkips(s, right[..|right| - 1]);
    }
  }

  lemma TrimSpaceBlank(s: string)
    ensures TrimSpace(s) == [] <==> Blank(s)
  {
    var left, right := TrimSpaceSpec(s);
    if TrimSpace(s) == [] {
      forall i | 0 <= i < |s| ensures IsSpace(s[i]) {
        assert s == left + right;
        if i < |left| { assert s[i] == left[i]; } else { assert s[i] == right[i - |left|]; }
      }
    } else {
      assert s[|left|] == TrimSpace(s)[0];
    }
  }

  /** Trailing white space does not change the trimmed text. */
  lemma TrimSpaceSuffix(s: string, tail: string)
    requires Blank(tail)
    ensures TrimSpace(s + tail) == TrimSpace(s)
  {
    var left, right := TrimSpaceSpec(s);
    if TrimSpace(s) == [] {
      TrimSpaceBlank(s);
      TrimSpaceBlank(s + tail);
    } else {
      assert s + tail == left + TrimSpace(s) + (right + tail);
      TrimSpaceUnique(left, TrimSpace(s), right + tail);
    }
  }

  // --------------------------------------------------------------- squeezing

  lemma {:induction false} SqueezeConcat(a: string, b: string)
    ensures Squeeze(a + b) == Squeeze(a) + Squeeze(b)
  {
    if a == [] {
      assert a + b == b;
    } else {
      assert (a + b)[1..] == a[1..] + b;
      SqueezeConcat(a[1..], b);
    }
  }

  lemma {:induction false} SqueezeBlank(s: string)
    ensures Squeeze(s) == [] <==> Blank(s)
  {
    if s != [] {
      SqueezeBlank(s[1..]);
      if IsSpace(s[0]) && Blank(s[1..]) {
        assert forall i :: 0 < i < |s| ==> s[i] == s[1..][i - 1];
      }
    }
  }

  lemma SqueezeTrimSpace(s: string)
    ensures Squeeze(TrimSpace(s)) == Squeeze(s)
  {
    var left, right := TrimSpaceSpec(s);
    SqueezeConcat(left + TrimSpace(s), right);
    SqueezeConcat(left, TrimSpace(s));
    SqueezeBlank(left);
    SqueezeBlank(right);
  }

  lemma {:induction false} SqueezeJoin(parts: seq<string>, sep: string)
    requires Blank(sep)
    ensures Squeeze(Join(parts, sep)) == Squeeze(Concat(parts))
  {
    if |parts| == 1 {
      assert Concat(parts) == parts[0] + Concat(parts[1..]) == parts[0];
    } else if parts != [] {
      var rest := Join(parts[1..], sep);
      SqueezeJoin(parts[1..], sep);
      SqueezeConcat(parts[0] + sep, rest);
      SqueezeConcat(parts[0], sep);
      SqueezeBlank(sep);
      SqueezeConcat(parts[0], Concat(parts[1..]));
    }
  }

  lemma {:induction false} ConcatAppend(a: seq<string>, b: seq<string>)
    ensures Concat(a + b) == Concat(a) + Concat(b)
  {
    if a == [] {
      assert a + b == b;
    } else {
      assert (a + b)[1..] == a[1..] + b;
      ConcatAppend(a[1..], b);
    }
  }

  // ------------------------------------------------------ splitting, joining

  lemma SplitAtSeparator(a: string, tail: string, sep: char)
    requires a != [] && a[0] == sep
    ensures Split(a + tail, sep) == [[]] + Split(a[1..] + tail, sep) && Split(a, sep) == [[]] + Split(a[1..], sep)
  {
    assert (a + tail)[1..] == a[1..] + tail;
  }

  lemma SplitAtOther(a: string, tail: string, sep: char)
    requires a != [] && a[0] != sep
    ensures var rest := Split(a[1..] + tail, sep);
            Split(a + tail, sep) == [[a[0]] + rest[0]] + rest[1..]
    ensures var left := Split(a[1..], sep);
            Split(a, sep) == [[a[0]] + left[0]] + left[1..]
  {
    assert (a + tail)[1..] == a[1..] + tail;
  }

  lemma PrefixHead<T>(first: T, left: seq<T>, right: seq<T>)
    requires left != []
    ensures [first] + (left + right)[1..] == ([first] + left[1..]) + right
  {
  }

  /** Splitting distributes over a separator. */
  lemma {:induction false} SplitAt(a: string, b: string, sep: char)
    ensures Split(a + [sep] + b, sep) == Split(a, sep) + Split(b, sep)
  {
    var tail := [sep] + b;
    assert a + [sep] + b == a + tail;
    if a == [] {
      assert (a + tail)[1..] == b;
    } else {
      SplitAt(a[1..], b, sep);
      assert a[1..] + [sep] + b == a[1..] + tail;
      var left, right := Split(a[1..], sep), Split(b, sep);
      if a[0] == sep {
        SplitAtSeparator(a, tail, sep);
        assert [[]] + (left + right) == ([[]] + left) + right;
      } else {
        SplitAtOther(a, tail, sep);
        PrefixHead([a[0]] + left[0], left, right);
      }
    }
  }

  lemma {:induction false} SplitNone(s: string, sep: char)
    requires sep !in s
    ensures Split(s, sep) == [s]
  {
    if s != [] {
      assert s[0] in s;
      assert forall c :: c in s[1..] ==> c in s;
      SplitNone(s[1..], sep);
      assert [s[0]] + s[1..] == s;
    }
  }

  /** No part holds the separator. */
  lemma {:induction false} SplitParts(s: string, sep: char)
    ensures forall i :: 0 <= i < |Split(s, sep)| ==> sep !in Split(s, sep)[i]
  {
    if s != [] {
      SplitParts(s[1..], sep);
    }
  }

  lemma JoinHead(first: string, parts: seq<string>, sep: string)
    requires parts != []
    ensures Join([first] + parts, sep) == first + sep + Join(parts, sep)
  {
    assert ([first] + parts)[1..] == parts;
  }

  /** One rune more at the front of the first part. */
  lemma JoinPushed(c: char, parts: seq<string>, sep: string)
    requires parts != []
    ensures Join([[c] + parts[0]] + parts[1..], sep) == [c] + Join(parts, sep)
  {
    if |parts| > 1 {
      JoinHead([c] + parts[0], parts[1..], sep);
      assert [c] + parts[0] + sep + Join(parts[1..], sep) == [c] + (parts[0] + sep + Join(parts[1..], sep));
    }
  }

  lemma {:induction false} JoinSplit(s: string, sep: char)
    ensures Join(Split(s, sep), [sep]) == s
  {
    if s != [] {
      JoinSplit(s[1..], sep);
      var rest := Split(s[1..], sep);
      if s[0] == sep {
        JoinHead([], rest, [sep]);
        assert [] + [sep] + s[1..] == s;
      } else {
        JoinPushed(s[0], rest, [sep]);
        assert [s[0]] + s[1..] == s;
      }
    }
  }

  lemma {:induction false} JoinAppend(a: seq<string>, b: seq<string>, sep: string)
    requires a != [] && b != []
    ensures Join(a + b, sep) == Join(a, sep) + sep + Join(b, sep)
  {
    if |a| == 1 {
      assert (a + b)[1..] == b;
    } else {
      assert (a + b)[1..] == a[1..] + b;
      JoinAppend(a[1..], b, sep);
      assert a[0] + sep + (Join(a[1..], sep) + sep + Join(b, sep))
          == (a[0] + sep + Join(a[1..], sep)) + sep + Join(b, sep);
    }
  }

  // ------------------------------------------------------ lexicographic order

  /** Texts with prefixes of one length compare by the prefix, then by the rest. */
  lemma {:induction false} LexPrefix(a: string, u: string, b: string, v: string)
    requires |a| == |b|
    ensures LexLess(a + u, b + v) <==> LexLess(a, b) || (a == b && LexLess(u, v))
  {
    if a == [] {
      assert a + u == u && b + v == v;
    } else {
      assert (a + u)[1..] == a[1..] + u && (b + v)[1..] == b[1..] + v;
      LexPrefix(a[1..], u, b[1..], v);
      assert a == [a[0]] + a[1..] && b == [b[0]] + b[1..];
    }
  }

  lemma {:induction false} LexIrreflexive(a: string)
    ensures !LexLess(a, a)
  {
    if a != [] { LexIrreflexive(a[1..]); }
  }

  lemma {:induction false} LexTransitive(a: string, b: string, c: string)
    requires !LexLess(a, b) && !LexLess(b, c)
    ensures !LexLess(a, c)
  {
    if a != [] && b != [] && c != [] && a[0] == b[0] == c[0] {
      LexTransitive(a[1..], b[1..], c[1..]);
    }
  }

  lemma {:induction false} LexTotal(a: string, b: string)
    ensures LexLess(a, b) || a == b || LexLess(b, a)
    ensures !(LexLess(a, b) && LexLess(b, a))
  {
    if a != [] && b != [] {
      LexTotal(a[1..], b[1..]);
      if a[0] == b[0] && a[1..] == b[1..] {
        assert a == [a[0]] + a[1..] && b == [b[0]] + b[1..];
      }
    }
  }
}
