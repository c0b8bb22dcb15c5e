/**
 * The string primitives the form component uses: JavaScript's `trim()`,
 * `split(c)` with a one-character separator, `toLowerCase()` and the
 * `replace(/\s+/g, '-')` rewrite.
 *
 * Whitespace is the ASCII set that `trim()` and `\s` both remove (space, tab,
 * line feed, carriage return, form feed, vertical tab); the Unicode spaces
 * and line separators JavaScript adds to it are not modelled. Case mapping is
 * likewise ASCII only.
 */
module Text {

  predicate IsWhitespace(c: char)
  {
    c == ' ' || c == '\t' || c == '\n' || c == '\r' || c == '\U{000C}' || c == '\U{000B}'
  }

  predicate AllWhitespace(s: string)
  {
    forall i :: 0 <= i < |s| ==> IsWhitespace(s[i])
  }

  predicate NoWhitespace(s: string)
  {
    forall i :: 0 <= i < |s| ==> !IsWhitespace(s[i])
  }

  /** Neither the first nor the last character is whitespace: what `trim()` guarantees. */
  predicate NoOuterWhitespace(s: string)
  {
    s == [] || (!IsWhitespace(s[0]) && !IsWhitespace(s[|s| - 1]))
  }

  // ---------------------------------------------------------------- trimming

  /** Drops the leading whitespace run. */
  function TrimStart(s: string): (r: string)
    ensures |r| <= |s|
    ensures r == [] || !IsWhitespace(r[0])
    ensures s != [] && IsWhitespace(s[0]) ==> |r| < |s|
  {
    if s != [] && IsWhitespace(s[0]) then TrimStart(s[1..]) else s
  }

  /** `TrimStart` keeps a suffix of its input and drops only whitespace. */
  lemma {:induction false} TrimStartCut(s: string)
    ensures var n := |s| - |TrimStart(s)|; TrimStart(s) == s[n..] && AllWhitespace(s[..n])
  {
    if s != [] && IsWhitespace(s[0]) {
      var t := s[1..];
      TrimStartCut(t);
      var n := |s| - |TrimStart(s)|;
      assert TrimStart(s) == TrimStart(t);
      assert t[n - 1..] == s[n..];
      forall i | 0 <= i < n ensures IsWhitespace(s[..n][i]) {
        if i > 0 { assert s[..n][i] == t[..n - 1][i - 1]; }
      }
    }
  }

  /** Drops the trailing whitespace run. */
  function TrimEnd(s: string): (r: string)
    ensures |r| <= |s|
    ensures r == [] || !IsWhitespace(r[|r| - 1])
    ensures s != [] && !IsWhitespace(s[0]) ==> r != [] && r[0] == s[0]
  {
    if s != [] && IsWhitespace(s[|s| - 1]) then TrimEnd(s[..|s| - 1]) else s
  }

  /** `TrimEnd` keeps a prefix of its input and drops only whitespace. */
  lemma {:induction false} TrimEndCut(s: string)
    ensures var n := |TrimEnd(s)|; TrimEnd(s) == s[..n] && AllWhitespace(s[n..])
  {
    if s != [] && IsWhitespace(s[|s| - 1]) {
      var t := s[..|s| - 1];
      TrimEndCut(t);
      var n := |TrimEnd(s)|;
      assert TrimEnd(s) == TrimEnd(t);
      assert t[..n] == s[..n];
      forall i | 0 <= i < |s| - n ensures IsWhitespace(s[n..][i]) {
        if i < |s| - 1 - n { assert s[n..][i] == t[n..][i]; }
      }
    }
  }

  /** JavaScript's `trim()`: both blank runs cut off, so no outer whitespace is left. */
  function Trim(s: string): (r: string)
    ensures NoOuterWhitespace(r)
  {
    if s != [] && IsWhitespace(s[0]) then Trim(s[1..]) else TrimEnd(s)
  }

  /**
   * What `Trim` cuts off is whitespace: the result is the middle of `s` once a
   * leading blank run of length `k` and a trailing blank run are removed.
   */
  lemma TrimSlice(s: string)
    ensures var r, k := Trim(s), |s| - |TrimStart(s)|;
      k + |r| <= |s| && r == s[k..k + |r|] && AllWhitespace(s[..k]) && AllWhitespace(s[k + |r|..])
  {
    TrimStartCut(s);
    TrimBody(s);
  }

  /** Helper of `TrimSlice`: the part after the leading run. */
  lemma {:induction false} TrimBody(s: string)
    ensures var r, k := Trim(s), |s| - |TrimStart(s)|;
      k + |r| <= |s| && r == s[k..k + |r|] && AllWhitespace(s[k + |r|..])
  {
    if s != [] && IsWhitespace(s[0]) {
      TrimBody(s[1..]);
      var r, k := Trim(s), |s| - |TrimStart(s)|;
      assert s[1..][k - 1..k - 1 + |r|] == s[k..k + |r|];
      assert s[1..][k - 1 + |r|..] == s[k + |r|..];
    } else {
      TrimEndCut(s);
    }
  }

  lemma {:induction false} TrimStartSkips(blank: string, t: string)
    requires AllWhitespace(blank)
    requires t == [] || !IsWhitespace(t[0])
    ensures TrimStart(blank + t) == t
  {
    if blank != [] {
      assert (blank + t)[1..] == blank[1..] + t;
      TrimStartSkips(blank[1..], t);
    }
  }

  lemma {:induction false} TrimEndSkips(t: string, blank: string)
    requires AllWhitespace(blank)
    requires t == [] || !IsWhitespace(t[|t| - 1])
    ensures TrimEnd(t + blank) == t
  {
    if blank != [] {
      var b' := blank[..|blank| - 1];
      assert (t + blank)[..|t + blank| - 1] == t + b';
      TrimEndSkips(t, b');
    }
  }

  /**
   * `Trim` is characterised by its result: whenever `s` is a blank run, a
   * string without outer whitespace and another blank run, `Trim(s)` is that
   * middle string.
   */
  lemma {:induction false} TrimUnique(lead: string, mid: string, trail: string)
    requires AllWhitespace(lead) && AllWhitespace(trail) && NoOuterWhitespace(mid)
    ensures Trim(lead + mid + trail) == mid
  {
    if lead != [] {
      assert (lead + mid + trail)[1..] == lead[1..] + mid + trail;
      TrimUnique(lead[1..], mid, trail);
    } else if mid != [] {
      assert lead + mid + trail == mid + trail;
      TrimEndSkips(mid, trail);
    } else {
      assert lead + mid + trail == trail;
      TrimBlank(trail);
    }
  }

  /** A blank string trims to the empty string. */
  lemma {:induction false} TrimBlank(s: string)
    requires AllWhitespace(s)
    ensures Trim(s) == []
  {
    if s != [] {
      TrimBlank(s[1..]);
    }
  }

  /** A string without outer whitespace is its own trim. */
  lemma TrimFixes(s: string)
    requires NoOuterWhitespace(s)
    ensures Trim(s) == s
  {
    assert [] + s + [] == s;
    TrimUnique([], s, []);
  }

  /** Trimming twice is trimming once. */
  lemma TrimIdempotent(s: string)
    ensures Trim(Trim(s)) == Trim(s)
  {
    var r := Trim(s);
    assert [] + r + [] == r;
    TrimUnique([], r, []);
  }

  /** A trimmed string is a piece of the original: every character of it occurs there. */
  lemma TrimKeepsCharacters(s: string)
    ensures forall c :: c in Trim(s) ==> c in s
  {
    var r := Trim(s);
    var k := |s| - |TrimStart(s)|;
    TrimSlice(s);
    forall c | c in r ensures c in s {
      var i :| 0 <= i < |r| && r[i] == c;
      assert s[k + i] == c;
    }
  }

  // ----------------------------------------------------------- split and join

  /** Number of occurrences of `c` in `s`. */
  function Count(s: string, c: char): nat
  {
    if s == [] then 0 else (if s[0] == c then 1 else 0) + Count(s[1..], c)
  }

  /**
   * JavaScript's `s.split(sep)` for a one-character separator: the pieces
   * between consecutive separators, empty pieces included, so that `k`
   * separators give `k + 1` pieces and the empty string gives `[""]`.
   */
  function Split(s: string, sep: char): (r: seq<string>)
    ensures |r| == Count(s, sep) + 1
    ensures forall i :: 0 <= i < |r| ==> sep !in r[i]
  {
    if s == [] then [[]]
    else
      var rest := Split(s[1..], sep);
      if s[0] == sep then [[]] + rest
      else [[s[0]] + rest[0]] + rest[1..]
  }

  /** The inverse of `Split`: the pieces with the separator between consecutive ones. */
  function Join(parts: seq<string>, sep: char): string
  {
    if |parts| == 0 then []
    else if |parts| == 1 then parts[0]
    else parts[0] + [sep] + Join(parts[1..], sep)
  }

  /** Splitting loses nothing and keeps the order: joining the pieces back gives the input. */
  lemma {:induction false} JoinSplit(s: string, sep: char)
    ensures Join(Split(s, sep), sep) == s
  {
    if s != [] {
      var rest := Split(s[1..], sep);
      JoinSplit(s[1..], sep);
      if s[0] == sep {
        assert Split(s, sep) == [[]] + rest;
        assert ([[]] + rest)[1..] == rest;
      } else if |rest| == 1 {
        assert Split(s, sep) == [[s[0]] + rest[0]];
      } else {
        var r := Split(s, sep);
        assert r[1..] == rest[1..];
        assert Join(rest, sep) == rest[0] + [sep] + Join(rest[1..], sep);
      }
    }
  }

  lemma {:induction false} SplitNoSeparator(p: string, sep: char)
    requires sep !in p
    ensures Split(p, sep) == [p]
  {
    if p != [] {
      SplitNoSeparator(p[1..], sep);
      assert [p[0]] + p[1..] == p;
    }
  }

  lemma {:induction false} SplitCons(p: string, sep: char, t: string)
    requires sep !in p
    ensures Split(p + [sep] + t, sep) == [p] + Split(t, sep)
  {
    var s := p + [sep] + t;
    if p == [] {
      assert s[1..] == t;
    } else {
      assert s[1..] == p[1..] + [sep] + t;
      SplitCons(p[1..], sep, t);
      assert [p[0]] + p[1..] == p;
    }
  }

  /** Splitting undoes joining when no piece contains the separator. */
  lemma {:induction false} SplitJoin(parts: seq<string>, sep: char)
    requires |parts| >= 1
    requires forall i :: 0 <= i < |parts| ==> sep !in parts[i]
    ensures Split(Join(parts, sep), sep) == parts
  {
    if |parts| == 1 {
      SplitNoSeparator(parts[0], sep);
    } else {
      SplitJoin(parts[1..], sep);
      SplitCons(parts[0], sep, Join(parts[1..], sep));
      assert [parts[0]] + parts[1..] == parts;
    }
  }

  // ------------------------------------------------------------- lower case

  function LowerChar(c: char): char
  {
    if 'A' <= c <= 'Z' then (c as int + 32) as char else c
  }

  /** `toLowerCase()`: each character mapped on its own, so length and position are kept. */
  function ToLower(s: string): (r: string)
    ensures |r| == |s|
    ensures forall i :: 0 <= i < |s| ==> r[i] == LowerChar(s[i])
  {
    if s == [] then [] else [LowerChar(s[0])] + ToLower(s[1..])
  }

  /** Lower-casing a character leaves no upper-case letter, is idempotent and never touches whitespace. */
  lemma LowerCharFacts(c: char)
    ensures !('A' <= LowerChar(c) <= 'Z')
    ensures LowerChar(LowerChar(c)) == LowerChar(c)
    ensures IsWhitespace(LowerChar(c)) == IsWhitespace(c)
    ensures !('A' <= c <= 'Z') ==> LowerChar(c) == c
    ensures 'A' <= c <= 'Z' ==> 'a' <= LowerChar(c) <= 'z'
  {
  }

  /** After lower-casing no upper-case letter is left, and whitespace is untouched. */
  lemma ToLowerFacts(s: string)
    ensures forall i :: 0 <= i < |s| ==> !('A' <= ToLower(s)[i] <= 'Z')
    ensures NoWhitespace(s) == NoWhitespace(ToLower(s))
  {
    var r := ToLower(s);
    forall i | 0 <= i < |s| ensures !('A' <= r[i] <= 'Z') && IsWhitespace(r[i]) == IsWhitespace(s[i]) {
      LowerCharFacts(s[i]);
    }
  }

  /** Lower-casing twice is lower-casing once. */
  lemma ToLowerIdempotent(s: string)
    ensures ToLower(ToLower(s)) == ToLower(s)
  {
    var r := ToLower(s);
    forall i | 0 <= i < |s| ensures ToLower(r)[i] == r[i] {
      LowerCharFacts(s[i]);
    }
  }

  lemma ToLowerAppend(a: string, b: string)
    ensures ToLower(a + b) == ToLower(a) + ToLower(b)
  {
    var l, r := ToLower(a + b), ToLower(a) + ToLower(b);
    assert |l| == |r|;
    forall i | 0 <= i < |l| ensures l[i] == r[i] {
      if i < |a| { assert (a + b)[i] == a[i]; } else { assert (a + b)[i] == b[i - |a|]; }
    }
  }

  // ------------------------------------------------------- whitespace runs

  /**
   * `replace(/\s+/g, '-')`: every maximal run of whitespace becomes a single
   * `-`; the other characters are kept in order.
   */
  function CollapseWhitespace(s: string): (r: string)
    ensures NoWhitespace(r)
    ensures |r| <= |s|
    decreases |s|
  {
    if s == [] then []
    else if IsWhitespace(s[0]) then
      var t := TrimStart(s);
      assert |t| < |s|;
      "-" + CollapseWhitespace(t)
    else [s[0]] + CollapseWhitespace(s[1..])
  }

  /** A string without whitespace is left as it is. */
  lemma {:induction false} CollapseNoWhitespace(s: string)
    requires NoWhitespace(s)
    ensures CollapseWhitespace(s) == s
  {
    if s != [] {
      CollapseNoWhitespace(s[1..]);
      assert [s[0]] + s[1..] == s;
    }
  }

  /**
   * One maximal whitespace run between `before` and `after` turns into exactly
   * one `-`, and the two sides are rewritten independently. With
   * `CollapseNoWhitespace` this determines the rewrite completely.
   */
  lemma {:induction false} CollapseRun(before: string, run: string, after: string)
    requires before == [] || !IsWhitespace(before[|before| - 1])
    requires run != [] && AllWhitespace(run)
    requires after == [] || !IsWhitespace(after[0])
    ensures CollapseWhitespace(before + run + after)
         == CollapseWhitespace(before) + "-" + CollapseWhitespace(after)
    decreases |before|, 1
  {
    if before == [] {
      assert before + run + after == run + after;
      TrimStartSkips(run, after);
    } else if IsWhitespace(before[0]) {
      CollapseRunAfterBlank(before, run, after);
    } else {
      CollapseRunAfterChar(before, run, after);
    }
  }

  /** Case of `CollapseRun` where `before` itself starts with a blank run. */
  lemma {:induction false} CollapseRunAfterBlank(before: string, run: string, after: string)
    requires before != [] && IsWhitespace(before[0]) && !IsWhitespace(before[|before| - 1])
    requires run != [] && AllWhitespace(run)
    requires after == [] || !IsWhitespace(after[0])
    ensures CollapseWhitespace(before + run + after)
         == CollapseWhitespace(before) + "-" + CollapseWhitespace(after)
    decreases |before|, 0
  {
    var t := TrimStart(before);
    TrimStartCut(before);
    assert t != [] && t[|t| - 1] == before[|before| - 1];
    CollapseRun(t, run, after);
    CollapseLeadingRun(before, run + after);
    CollapseLeadingRun(before, []);
    Associative(before, run, after);
    Associative(t, run, after);
    AppendEmpty(before);
    AppendEmpty(t);
  }

  /** Case of `CollapseRun` where `before` starts with a character that is kept. */
  lemma {:induction false} CollapseRunAfterChar(before: string, run: string, after: string)
    requires before != [] && !IsWhitespace(before[0]) && !IsWhitespace(before[|before| - 1])
    requires run != [] && AllWhitespace(run)
    requires after == [] || !IsWhitespace(after[0])
    ensures CollapseWhitespace(before + run + after)
         == CollapseWhitespace(before) + "-" + CollapseWhitespace(after)
    decreases |before|, 0
  {
    var rest := before[1..];
    assert rest == [] || rest[|rest| - 1] == before[|before| - 1];
    CollapseRun(rest, run, after);
    CollapseKeepsFirst(before, run + after);
    CollapseKeepsFirst(before, []);
    Associative(before, run, after);
    Associative(rest, run, after);
    AppendEmpty(before);
    AppendEmpty(rest);
  }

  lemma Associative(a: string, b: string, c: string)
    ensures a + b + c == a + (b + c)
  {
  }

  lemma AppendEmpty(a: string)
    ensures a + [] == a
  {
  }

  /** Helper of `CollapseRun`: a leading blank run of `before` is rewritten on its own. */
  lemma CollapseLeadingRun(before: string, rest: string)
    requires before != [] && IsWhitespace(before[0]) && !IsWhitespace(before[|before| - 1])
    ensures CollapseWhitespace(before + rest) == "-" + CollapseWhitespace(TrimStart(before) + rest)
  {
    var t := TrimStart(before);
    var lead := before[..|before| - |t|];
    TrimStartCut(before);
    assert before == lead + t;
    assert t != [] && t[|t| - 1] == before[|before| - 1];
    assert before + rest == lead + (t + rest);
    TrimStartSkips(lead, t + rest);
  }

  /** Helper of `CollapseRun`: a non-blank first character is kept as it is. */
  lemma CollapseKeepsFirst(before: string, rest: string)
    requires before != [] && !IsWhitespace(before[0])
    ensures CollapseWhitespace(before + rest) == [before[0]] + CollapseWhitespace(before[1..] + rest)
  {
    assert (before + rest)[1..] == before[1..] + rest;
  }

  /** No two adjacent dashes. */
  predicate NoDoubleDash(s: string)
  {
    forall i :: 0 <= i < |s| - 1 ==> !(s[i] == '-' && s[i + 1] == '-')
  }

  /**
   * When the input has no `-` of its own, the rewrite never produces two
   * adjacent dashes: consecutive blanks collapse into one.
   */
  lemma {:induction false} CollapseNoDoubleDash(s: string)
    requires '-' !in s
    ensures NoDoubleDash(CollapseWhitespace(s))
    ensures var r := CollapseWhitespace(s);
      s != [] && !IsWhitespace(s[0]) ==> r != [] && r[0] == s[0]
    decreases |s|
  {
    if s != [] {
      if IsWhitespace(s[0]) {
        var t := TrimStart(s);
        TrimStartCut(s);
        assert '-' !in t;
        CollapseNoDoubleDash(t);
      } else {
        assert '-' !in s[1..];
        CollapseNoDoubleDash(s[1..]);
        var r := CollapseWhitespace(s);
        assert r == [s[0]] + CollapseWhitespace(s[1..]);
      }
    }
  }
}
