/** The JavaScript string operations the bridge relies on: `trim`, `toLowerCase`,
    `startsWith`, `split(',')` (with `join` as its inverse) and the `||` default
    on possibly-missing environment strings. */
module JsText {
  import opened Wrappers

  /** The code points ECMAScript's `String.prototype.trim` removes: the
      WhiteSpace set (TAB, VT, FF, ZWNBSP and every space separator of Unicode
      category Zs) and the LineTerminator set (LF, CR, LS, PS). */
  predicate IsWhitespace(c: char) {
    c == '\t' || c == '\n' || c == '\U{B}' || c == '\U{C}' || c == '\r'
    || c == ' ' || c == '\U{A0}' || c == '\U{1680}'
    || ('\U{2000}' <= c <= '\U{200A}')
    || c == '\U{2028}' || c == '\U{2029}' || c == '\U{202F}' || c == '\U{205F}'
    || c == '\U{3000}' || c == '\U{FEFF}'
  }

  predicate AllWhitespace(s: string) {
    forall i :: 0 <= i < |s| ==> IsWhitespace(s[i])
  }

  /** `s` neither starts nor ends with whitespace. */
  predicate Trimmed(s: string) {
    s == [] || (!IsWhitespace(s[0]) && !IsWhitespace(s[|s| - 1]))
  }

  /** Drops the leading whitespace: what is left is a suffix of `s` that does
      not start with whitespace (`TrimStartDropsWhitespace` shows that what
      was dropped is whitespace). */
  function TrimStart(s: string): (r: string)
    ensures |r| <= |s| && r == s[|s| - |r|..]
    ensures r == [] || !IsWhitespace(r[0])
    decreases |s|
  {
    if s != [] && IsWhitespace(s[0]) then TrimStart(s[1..]) else s
  }

  /** Drops the trailing whitespace: what is left is a prefix of `s` that does
      not end with whitespace (`TrimEndDropsWhitespace` shows that what was
      dropped is whitespace). */
  function TrimEnd(s: string): (r: string)
    ensures |r| <= |s| && r == s[..|r|]
    ensures r == [] || !IsWhitespace(r[|r| - 1])
    decreases |s|
  {
    if s != [] && IsWhitespace(s[|s| - 1]) then TrimEnd(s[..|s| - 1]) else s
  }

  /** `String.prototype.trim`: removes whitespace at both ends, so the result
      has none at either end. */
  function Trim(s: string): (r: string)
    ensures Trimmed(r)
  {
    var t := TrimStart(s);
    var r := TrimEnd(t);
    assert |r| > 0 ==> r[0] == t[0];
    r
  }

  /** ASCII case map: `A`..`Z` become `a`..`z`, every other code point is kept. */
  function LowerChar(c: char): (d: char)
    ensures 'A' <= c <= 'Z' ==> 'a' <= d <= 'z' && d as int - c as int == 32
    ensures !('A' <= c <= 'Z') ==> d == c
  {
    if 'A' <= c <= 'Z' then (c as int - 'A' as int + 'a' as int) as char else c
  }

  /** `String.prototype.toLowerCase` on the ASCII case map: same length, each
      code point mapped on its own. */
  function ToLower(s: string): (r: string)
    ensures |r| == |s|
    ensures forall i :: 0 <= i < |s| ==> r[i] == LowerChar(s[i])
    decreases |s|
  {
    if s == [] then [] else [LowerChar(s[0])] + ToLower(s[1..])
  }

  /** `String.prototype.startsWith`. */
  predicate StartsWith(s: string, prefix: string) {
    |prefix| <= |s| && s[..|prefix|] == prefix
  }

  /** JavaScript truthiness of a string that may be `undefined` or `null`:
      both of those and the empty string are falsy. */
  predicate Truthy(v: Option<string>) {
    v.Some? && v.value != ""
  }

  /** JavaScript `v || d` on a possibly-missing string. */
  function OrDefault(v: Option<string>, d: string): (r: string)
    ensures r == d <==> (!Truthy(v) || v.value == d)
    ensures r != d ==> v == Some(r)
  {
    if Truthy(v) then v.value else d
  }

  /** `String.prototype.split` with a one-character separator: the pieces
      between separators, always at least one. */
  function Split(s: string, sep: char): (parts: seq<string>)
    ensures |parts| >= 1
    decreases |s|
  {
    if s == [] then [""]
    else
      var rest := Split(s[1..], sep);
      if s[0] == sep then [""] + rest
      else [[s[0]] + rest[0]] + rest[1..]
  }

  /** `Array.prototype.join` with a one-character separator, the inverse of
      `Split`. */
  function Join(parts: seq<string>, sep: char): string
    decreases |parts|
  {
    if parts == [] then ""
    else if |parts| == 1 then parts[0]
    else parts[0] + [sep] + Join(parts[1..], sep)
  }

  // ---------------------------------------------------------------------------
  // Trim

  /** What `TrimStart` drops is whitespace. */
  lemma {:induction false} TrimStartDropsWhitespace(s: string)
    ensures AllWhitespace(s[..|s| - |TrimStart(s)|])
    decreases |s|
  {
    if s != [] && IsWhitespace(s[0]) {
      var t := s[1..];
      TrimStartDropsWhitespace(t);
      var k := |s| - |TrimStart(s)|;
      assert TrimStart(s) == TrimStart(t);
      assert AllWhitespace(t[..k - 1]);
      forall i | 0 <= i < k ensures IsWhitespace(s[..k][i]) {
        if i == 0 {
          assert s[..k][i] == s[0];
        } else {
          assert s[..k][i] == t[..k - 1][i - 1];
        }
      }
    }
  }

  /** What `TrimEnd` drops is whitespace. */
  lemma {:induction false} TrimEndDropsWhitespace(s: string)
    ensures AllWhitespace(s[|TrimEnd(s)|..])
    decreases |s|
  {
    if s != [] && IsWhitespace(s[|s| - 1]) {
      var u := s[..|s| - 1];
      TrimEndDropsWhitespace(u);
      var k := |TrimEnd(s)|;
      assert TrimEnd(s) == TrimEnd(u);
      forall i | 0 <= i < |s| - k ensures IsWhitespace(s[k..][i]) {
        assert k + i < |s| - 1 ==> s[k..][i] == u[k..][i];
      }
    }
  }

  /** A blank string has nothing left after `TrimStart`. */
  lemma TrimStartOfBlank(s: string)
    requires AllWhitespace(s)
    ensures TrimStart(s) == []
  {
    var t := TrimStart(s);
    assert |t| > 0 ==> t[0] == s[|s| - |t|];
  }

  /** `trim` gives the empty string exactly for all-whitespace input. */
  lemma TrimEmptyIffBlank(s: string)
    ensures Trim(s) == [] <==> AllWhitespace(s)
  {
    var t := TrimStart(s);
    if AllWhitespace(s) {
      TrimStartOfBlank(s);
    }
    if Trim(s) == [] {
      TrimEndDropsWhitespace(t);
      assert t[|TrimEnd(t)|..] == t;
      TrimStartOfBlank(t);
      TrimStartDropsWhitespace(s);
      assert s[..|s| - |t|] == s;
    }
  }

  /** Regrouping a concatenation, proved away from any whitespace facts so
      that callers need not re-derive it element by element. */
  lemma Regroup(a: string, b: string, c: string, d: string)
    ensures a + b + c + d == a + (b + c) + d
    ensures a + b + c == a + (b + c)
  {
  }

  /** A character missing from a string is missing from each of its slices. */
  lemma SliceKeepsOut(s: string, a: nat, b: nat, c: char)
    requires a <= b <= |s| && c !in s
    ensures c !in s[a..b]
  {
    forall i | 0 <= i < b - a
      ensures s[a..b][i] != c
    {
      assert s[a..b][i] == s[a + i];
    }
  }

  /** Trimming keeps only characters of the input. */
  lemma TrimAddsNothing(s: string, c: char)
    requires c !in s
    ensures c !in Trim(s)
  {
    var t := TrimStart(s);
    SliceKeepsOut(s, |s| - |t|, |s|, c);
    assert t == s[|s| - |t|..|s|];
    var r := TrimEnd(t);
    SliceKeepsOut(t, 0, |r|, c);
    assert r == t[0..|r|];
  }

  lemma {:induction false} TrimStartSkipsPadding(w: string, x: string)
    requires AllWhitespace(w)
    ensures TrimStart(w + x) == TrimStart(x)
    decreases |w|
  {
    var y := w + x;
    if w == [] {
      assert y == x;
    } else {
      assert y[0] == w[0] && IsWhitespace(y[0]);
      assert y[1..] == w[1..] + x;
      assert TrimStart(y) == TrimStart(y[1..]);
      TrimStartSkipsPadding(w[1..], x);
    }
  }

  lemma {:induction false} TrimEndSkipsPadding(x: string, w: string)
    requires AllWhitespace(w)
    ensures TrimEnd(x + w) == TrimEnd(x)
    decreases |w|
  {
    var y := x + w;
    if w == [] {
      assert y == x;
    } else {
      assert y[|y| - 1] == w[|w| - 1] && IsWhitespace(y[|y| - 1]);
      assert y[..|y| - 1] == x + w[..|w| - 1];
      assert TrimEnd(y) == TrimEnd(y[..|y| - 1]);
      TrimEndSkipsPadding(x, w[..|w| - 1]);
    }
  }

  /** Trailing whitespace survives `TrimStart` unless the whole string is blank. */
  lemma {:induction false} TrimStartKeepsTail(x: string, w: string)
    requires AllWhitespace(w)
    ensures TrimStart(x + w) == if AllWhitespace(x) then [] else TrimStart(x) + w
    decreases |x|
  {
    var y := x + w;
    if AllWhitespace(x) {
      assert forall i :: 0 <= i < |y| ==> IsWhitespace(y[i]) by {
        assert forall i :: 0 <= i < |y| ==> y[i] == if i < |x| then x[i] else w[i - |x|];
      }
      TrimStartOfBlank(y);
    } else if IsWhitespace(x[0]) {
      assert !AllWhitespace(x[1..]) by {
        var j :| 0 <= j < |x| && !IsWhitespace(x[j]);
        assert x[1..][j - 1] == x[j];
      }
      assert y[1..] == x[1..] + w;
      TrimStartKeepsTail(x[1..], w);
    } else {
      assert y[0] == x[0];
    }
  }

  lemma {:induction false} TrimStartSkipsLeadingPadding(w1: string, x: string, w2: string)
    requires AllWhitespace(w1)
    ensures TrimStart(w1 + x + w2) == TrimStart(x + w2)
  {
    Regroup(w1, x, w2, "");
    TrimStartSkipsPadding(w1, x + w2);
  }

  /** `TrimStart` of a padded string: nothing if the core is blank, else the
      core's `TrimStart` followed by the trailing padding. */
  lemma {:induction false} TrimStartOfPadded(w1: string, x: string, w2: string)
    requires AllWhitespace(w1) && AllWhitespace(w2)
    ensures TrimStart(w1 + x + w2) == if AllWhitespace(x) then [] else TrimStart(x) + w2
  {
    TrimStartSkipsLeadingPadding(w1, x, w2);
    TrimStartKeepsTail(x, w2);
  }

  /** Whitespace added at either end of a string never changes its trim. */
  lemma {:induction false} TrimIgnoresPadding(w1: string, x: string, w2: string)
    requires AllWhitespace(w1) && AllWhitespace(w2)
    ensures Trim(w1 + x + w2) == Trim(x)
  {
    TrimStartOfPadded(w1, x, w2);
    if AllWhitespace(x) {
      TrimStartOfBlank(x);
    } else {
      TrimEndSkipsPadding(TrimStart(x), w2);
    }
  }

  /** A string without whitespace at its ends is its own trim. */
  lemma {:induction false} TrimKeepsTrimmed(x: string)
    requires Trimmed(x)
    ensures Trim(x) == x
  {
    if x != [] {
      assert TrimStart(x) == x;
      assert TrimEnd(x) == x;
    }
  }

  /** Padding a string that has no whitespace at its ends, then trimming,
      gives back the string. */
  lemma TrimRemovesPadding(w1: string, t: string, w2: string)
    requires AllWhitespace(w1) && AllWhitespace(w2)
    requires Trimmed(t)
    ensures Trim(w1 + t + w2) == t
  {
    TrimKeepsTrimmed(t);
    TrimIgnoresPadding(w1, t, w2);
  }

  /** Trimming twice is trimming once. */
  lemma TrimIdempotent(s: string)
    ensures Trim(Trim(s)) == Trim(s)
  {
    TrimKeepsTrimmed(Trim(s));
  }

  // ---------------------------------------------------------------------------
  // toLowerCase

  lemma LowerCharKeepsWhitespace(c: char)
    ensures IsWhitespace(LowerChar(c)) == IsWhitespace(c)
  {
  }

  /** Lower-casing twice is lower-casing once. */
  lemma ToLowerIdempotent(s: string)
    ensures ToLower(ToLower(s)) == ToLower(s)
  {
  }

  lemma ToLowerSuffix(s: string, k: nat)
    requires k <= |s|
    ensures ToLower(s)[k..] == ToLower(s[k..])
  {
  }

  /** Lower-casing a string lower-cases each of its prefixes. */
  lemma LowerStartsWithLower(command: string, rest: string)
    ensures StartsWith(ToLower(command + rest), ToLower(command))
  {
    ToLowerPrefix(command + rest, |command|);
    assert (command + rest)[..|command|] == command;
  }

  lemma ToLowerPrefix(s: string, k: nat)
    requires k <= |s|
    ensures ToLower(s)[..k] == ToLower(s[..k])
  {
  }

  lemma {:induction false} TrimStartCommutesWithLower(s: string)
    ensures ToLower(TrimStart(s)) == TrimStart(ToLower(s))
    decreases |s|
  {
    if s != [] {
      LowerCharKeepsWhitespace(s[0]);
      if IsWhitespace(s[0]) {
        ToLowerSuffix(s, 1);
        TrimStartCommutesWithLower(s[1..]);
      }
    }
  }

  lemma TrimEndKeepsSolidEnd(s: string)
    requires s != [] && !IsWhitespace(s[|s| - 1])
    ensures TrimEnd(s) == s
  {
  }

  lemma {:induction false} TrimEndCommutesWithLower(s: string)
    ensures ToLower(TrimEnd(s)) == TrimEnd(ToLower(s))
    decreases |s|
  {
    if s != [] {
      var n := |s| - 1;
      var low := ToLower(s);
      LowerCharKeepsWhitespace(s[n]);
      assert low[n] == LowerChar(s[n]);
      if IsWhitespace(s[n]) {
        var u := s[..n];
        ToLowerPrefix(s, n);
        assert TrimEnd(low) == TrimEnd(low[..n]);
        assert TrimEnd(s) == TrimEnd(u);
        TrimEndCommutesWithLower(u);
      } else {
        TrimEndKeepsSolidEnd(low);
        TrimEndKeepsSolidEnd(s);
      }
    }
  }

  /** The order of `trim` and `toLowerCase` does not matter: the ASCII case map
      neither creates nor removes whitespace. */
  lemma TrimCommutesWithLower(s: string)
    ensures ToLower(Trim(s)) == Trim(ToLower(s))
  {
    TrimStartCommutesWithLower(s);
    TrimEndCommutesWithLower(TrimStart(s));
  }

  // ---------------------------------------------------------------------------
  // split / join

  /** No piece of a split contains the separator. */
  lemma {:induction false} SplitPiecesOmitSeparator(s: string, sep: char)
    ensures forall i :: 0 <= i < |Split(s, sep)| ==> sep !in Split(s, sep)[i]
    decreases |s|
  {
    if s != [] {
      SplitPiecesOmitSeparator(s[1..], sep);
      var rest := Split(s[1..], sep);
      if s[0] != sep {
        var head := [s[0]] + rest[0];
        assert sep !in rest[0];
        assert sep !in head by {
          assert forall j :: 0 <= j < |head| ==> head[j] == if j == 0 then s[0] else rest[0][j - 1];
        }
      }
    }
  }

  /** Joining a piece in front of a non-empty list puts one separator
      between them. */
  lemma JoinCons(head: string, parts: seq<string>, sep: char)
    requires |parts| >= 1
    ensures Join([head] + parts, sep) == head + [sep] + Join(parts, sep)
  {
    assert ([head] + parts)[1..] == parts;
  }

  /** Gluing a character onto the first piece glues it onto the join. */
  lemma JoinGlue(c: char, parts: seq<string>, sep: char)
    requires |parts| >= 1
    ensures Join([[c] + parts[0]] + parts[1..], sep) == [c] + Join(parts, sep)
  {
    if |parts| > 1 {
      var tail := parts[1..];
      JoinCons([c] + parts[0], tail, sep);
      JoinCons(parts[0], tail, sep);
      assert parts == [parts[0]] + tail;
    }
  }

  /** Joining the pieces of a split gives back the string. */
  lemma {:induction false} JoinSplit(s: string, sep: char)
    ensures Join(Split(s, sep), sep) == s
    decreases |s|
  {
    if s != [] {
      var rest := Split(s[1..], sep);
      JoinSplit(s[1..], sep);
      if s[0] == sep {
        JoinCons("", rest, sep);
        assert s == [sep] + s[1..];
      } else {
        JoinGlue(s[0], rest, sep);
        assert s == [s[0]] + s[1..];
      }
    }
  }

  /** A separator-free first piece followed by the separator splits off on
      its own. */
  lemma SplitFirstPiece(head: string, rest: string, sep: char)
    requires sep !in head
    ensures Split(head + [sep] + rest, sep) == [head] + Split(rest, sep)
  {
    SplitGluesHead(head, [sep] + rest, sep);
    assert head + [sep] + rest == head + ([sep] + rest);
    assert ([sep] + rest)[1..] == rest;
    assert head + "" == head;
  }

  /** A separator-free head stays glued to the first piece of what follows. */
  lemma {:induction false} SplitGluesHead(p: string, t: string, sep: char)
    requires sep !in p
    ensures Split(p + t, sep) == [p + Split(t, sep)[0]] + Split(t, sep)[1..]
    decreases |p|
  {
    if p == [] {
      assert p + t == t;
      assert p + Split(t, sep)[0] == Split(t, sep)[0];
      assert Split(t, sep) == [Split(t, sep)[0]] + Split(t, sep)[1..];
    } else {
      assert (p + t)[1..] == p[1..] + t;
      assert p[0] in p;
      SplitGluesHead(p[1..], t, sep);
      assert [p[0]] + (p[1..] + Split(t, sep)[0]) == p + Split(t, sep)[0];
    }
  }

  /** A join of at least one piece is empty exactly when it is the join of
      the single empty piece. */
  lemma JoinEmptyIff(parts: seq<string>, sep: char)
    requires |parts| >= 1
    ensures Join(parts, sep) == "" <==> parts == [""]
  {
  }

  /** Splitting the join of separator-free pieces gives back the pieces. */
  lemma {:induction false} SplitJoin(parts: seq<string>, sep: char)
    requires |parts| >= 1
    requires forall i :: 0 <= i < |parts| ==> sep !in parts[i]
    ensures Split(Join(parts, sep), sep) == parts
    decreases |parts|
  {
    if |parts| == 1 {
      SplitGluesHead(parts[0], "", sep);
      assert parts[0] + "" == parts[0];
    } else {
      var tail := Join(parts[1..], sep);
      SplitJoin(parts[1..], sep);
      assert Split([sep] + tail, sep) == [""] + parts[1..];
      assert Join(parts, sep) == parts[0] + ([sep] + tail);
      SplitGluesHead(parts[0], [sep] + tail, sep);
      assert parts[0] + "" == parts[0];
    }
  }
}
