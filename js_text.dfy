/**
 * The few JavaScript built-ins the client's handlers rely on, stated exactly:
 * `String.prototype.trim`, `Math.round`, the text `+` appends for a
 * string-or-null value, and the white-space normalisation the HTML standard
 * applies when an `<option>`'s `text` is read.
 */
module JsText {
  import opened Wrappers

  /** ECMAScript WhiteSpace and LineTerminator code points: what `trim` strips. */
  predicate IsSpace(c: char) {
    || c == '\t' || c == '\n' || c == '\U{000B}' || c == '\U{000C}' || c == '\r'
    || c == ' ' || c == '\U{00A0}' || c == '\U{1680}'
    || ('\U{2000}' <= c <= '\U{200A}')
    || c == '\U{2028}' || c == '\U{2029}' || c == '\U{202F}' || c == '\U{205F}'
    || c == '\U{3000}' || c == '\U{FEFF}'
  }

  /** Every character of `s` is white space (vacuously true of ""). */
  predicate AllSpace(s: string) {
    forall i :: 0 <= i < |s| ==> IsSpace(s[i])
  }

  /** Drops leading white space. */
  function TrimStart(s: string): (r: string)
    ensures |r| <= |s|
  {
    if s != [] && IsSpace(s[0]) then TrimStart(s[1..]) else s
  }

  /** Drops trailing white space. */
  function TrimEnd(s: string): (r: string)
    ensures |r| <= |s|
  {
    if s != [] && IsSpace(s[|s| - 1]) then TrimEnd(s[..|s| - 1]) else s
  }

  /** `s.trim()`: white space removed from both ends, nothing else changed. */
  function Trim(s: string): (r: string)
    ensures |r| <= |s|
  {
    TrimEnd(TrimStart(s))
  }

  /** `TrimStart` removes a white-space prefix and stops at the first other character. */
  lemma {:induction false} TrimStartIsSuffix(s: string)
    ensures var r := TrimStart(s);
      && r == s[|s| - |r|..] && AllSpace(s[..|s| - |r|]) && (r != [] ==> !IsSpace(r[0]))
  {
    if s != [] && IsSpace(s[0]) {
      var r := TrimStart(s[1..]);
      TrimStartIsSuffix(s[1..]);
      assert s[1..][..|s[1..]| - |r|] == s[1..|s| - |r|];
    }
  }

  /** `TrimEnd` removes a white-space suffix and stops at the last other character. */
  lemma {:induction false} TrimEndIsPrefix(s: string)
    ensures var r := TrimEnd(s);
      && r == s[..|r|] && AllSpace(s[|r|..]) && (r != [] ==> !IsSpace(r[|r| - 1]))
  {
    if s != [] && IsSpace(s[|s| - 1]) {
      var r := TrimEnd(s[..|s| - 1]);
      TrimEndIsPrefix(s[..|s| - 1]);
      assert s[..|s| - 1][|r|..] == s[|r|..|s| - 1];
    }
  }

  /**
   * `trim` keeps one contiguous run of the input, starting at the first
   * character that is not white space; all that it drops is white space, and
   * the run neither starts nor ends with white space.
   */
  lemma TrimIsInner(s: string)
    ensures var r, i := Trim(s), |s| - |TrimStart(s)|;
      && 0 <= i <= i + |r| <= |s| && r == s[i..i + |r|]
      && AllSpace(s[..i]) && AllSpace(s[i + |r|..])
      && (r != [] ==> !IsSpace(r[0]) && !IsSpace(r[|r| - 1]))
  {
    var t := TrimStart(s);
    var i := |s| - |t|;
    TrimStartIsSuffix(s);
    assert t == s[i..] && AllSpace(s[..i]);
    var r := TrimEnd(t);
    TrimEndIsPrefix(t);
    assert r == Trim(s);
    assert r == t[..|r|] && AllSpace(t[|r|..]);
    assert r == s[i..i + |r|] by {
      assert s[i..][..|r|] == s[i..i + |r|];
    }
    assert AllSpace(s[i + |r|..]) by {
      assert t[|r|..] == s[i + |r|..];
    }
    assert r != [] ==> r[0] == t[0];
  }

  /** `trim` yields the empty string exactly when the input is empty or all white space. */
  lemma TrimEmptyIff(s: string)
    ensures Trim(s) == [] <==> AllSpace(s)
  {
    var t := TrimStart(s);
    TrimStartIsSuffix(s);
    TrimEndIsPrefix(t);
    assert t[0..] == t;
  }

  /** `Math.round(x)`: the nearest integer, halves rounded upwards (towards +infinity). */
  function MathRound(x: real): (r: int)
    ensures x - 0.5 < r as real <= x + 0.5
  {
    (x + 0.5).Floor
  }

  /** Rounding an integral value leaves it unchanged. */
  lemma MathRoundOfInt(n: int)
    ensures MathRound(n as real) == n
  {
  }

  /** `String(v)` for a string that may be `null`: what `+` appends to a string. */
  function JsString(v: Option<string>): string {
    match v
    case Some(s) => s
    case None => "null"
  }

  // ---------------------------------------------------------------------
  // An option's `text`: strip and collapse ASCII whitespace
  // ---------------------------------------------------------------------

  /** ASCII whitespace as the HTML standard defines it: tab, line feed, form feed, carriage return, space. */
  predicate IsAsciiSpace(c: char) {
    c == '\t' || c == '\n' || c == '\U{000C}' || c == '\r' || c == ' '
  }

  /**
   * "Strip and collapse ASCII whitespace", which the `text` getter of an
   * `<option>` applies to its text content: leading and trailing runs are
   * dropped and every inner run becomes one space.
   */
  function StripAndCollapse(s: string): string {
    if s == [] then []
    else if IsAsciiSpace(s[0]) then StripAndCollapse(s[1..])
    else [s[0]] + CollapseRest(s[1..], false)
  }

  /** The text after the first kept character; `gap` records a run of whitespace since the last kept character. */
  function CollapseRest(s: string, gap: bool): string {
    if s == [] then []
    else if IsAsciiSpace(s[0]) then CollapseRest(s[1..], true)
    else (if gap then [' '] else []) + [s[0]] + CollapseRest(s[1..], false)
  }

  /** Every whitespace character is a single space followed by a character that is not whitespace. */
  predicate TailCollapsed(s: string) {
    forall i :: 0 <= i < |s| && IsAsciiSpace(s[i]) ==> s[i] == ' ' && i + 1 < |s| && !IsAsciiSpace(s[i + 1])
  }

  /** The shape of a normalised text: no whitespace at the start, and single spaces between words. */
  predicate Collapsed(s: string) {
    (s != [] ==> !IsAsciiSpace(s[0])) && TailCollapsed(s)
  }

  /** The characters that are not ASCII whitespace, in order. */
  function NonSpace(s: string): string {
    if s == [] then [] else (if IsAsciiSpace(s[0]) then [] else [s[0]]) + NonSpace(s[1..])
  }

  lemma {:induction false} NonSpaceAppend(a: string, b: string)
    ensures NonSpace(a + b) == NonSpace(a) + NonSpace(b)
  {
    if a != [] {
      assert (a + b)[1..] == a[1..] + b;
      NonSpaceAppend(a[1..], b);
    } else {
      assert a + b == b;
    }
  }

  lemma {:induction false} CollapseRestShape(s: string, gap: bool)
    ensures var r := CollapseRest(s, gap);
      && TailCollapsed(r) && NonSpace(r) == NonSpace(s)
  {
    if s != [] {
      CollapseRestShape(s[1..], IsAsciiSpace(s[0]));
      if !IsAsciiSpace(s[0]) {
        var rest := CollapseRest(s[1..], false);
        var head := (if gap then " " else "") + [s[0]];
        assert CollapseRest(s, gap) == head + rest;
        NonSpaceAppend(head, rest);
        assert NonSpace(s) == [s[0]] + NonSpace(s[1..]);
        if gap {
          assert NonSpace(head) == NonSpace([s[0]]) by {
            assert head[1..] == [s[0]];
          }
        }
        var r := head + rest;
        forall i | 0 <= i < |r| && IsAsciiSpace(r[i])
          ensures r[i] == ' ' && i + 1 < |r| && !IsAsciiSpace(r[i + 1])
        {
          if i >= |head| {
            assert r[i] == rest[i - |head|];
            if i + 1 < |r| {
              assert r[i + 1] == rest[i + 1 - |head|];
            }
          }
        }
      }
    }
  }

  /** The normalised text has the collapsed shape and keeps every other character in order. */
  lemma {:induction false} StripAndCollapseShape(s: string)
    ensures Collapsed(StripAndCollapse(s)) && NonSpace(StripAndCollapse(s)) == NonSpace(s)
  {
    if s != [] {
      if IsAsciiSpace(s[0]) {
        StripAndCollapseShape(s[1..]);
      } else {
        var rest := CollapseRest(s[1..], false);
        CollapseRestShape(s[1..], false);
        var r := [s[0]] + rest;
        NonSpaceAppend([s[0]], rest);
        assert NonSpace(s) == [s[0]] + NonSpace(s[1..]);
        forall i | 0 <= i < |r| && IsAsciiSpace(r[i])
          ensures r[i] == ' ' && i + 1 < |r| && !IsAsciiSpace(r[i + 1])
        {
          assert r[i] == rest[i - 1];
          if i + 1 < |r| {
            assert r[i + 1] == rest[i];
          }
        }
      }
    }
  }

  lemma {:induction false} CollapseRestFixed(s: string)
    requires TailCollapsed(s)
    ensures CollapseRest(s, false) == s
    decreases |s|
  {
    if s != [] {
      if IsAsciiSpace(s[0]) {
        assert s[0] == ' ' && !IsAsciiSpace(s[1]);
        assert TailCollapsed(s[2..]) by {
          forall i | 0 <= i < |s[2..]| && IsAsciiSpace(s[2..][i])
            ensures s[2..][i] == ' ' && i + 1 < |s[2..]| && !IsAsciiSpace(s[2..][i + 1])
          {
            assert s[2..][i] == s[i + 2];
            assert i + 3 < |s| ==> s[2..][i + 1] == s[i + 3];
          }
        }
        CollapseRestFixed(s[2..]);
        assert s[1..][1..] == s[2..];
        assert s == [' ', s[1]] + s[2..];
      } else {
        assert TailCollapsed(s[1..]) by {
          forall i | 0 <= i < |s[1..]| && IsAsciiSpace(s[1..][i])
            ensures s[1..][i] == ' ' && i + 1 < |s[1..]| && !IsAsciiSpace(s[1..][i + 1])
          {
            assert s[1..][i] == s[i + 1];
            assert i + 2 < |s| ==> s[1..][i + 1] == s[i + 2];
          }
        }
        CollapseRestFixed(s[1..]);
        assert s == [s[0]] + s[1..];
      }
    }
  }

  /** A text that already has the collapsed shape is read back unchanged; so normalising twice is normalising once. */
  lemma StripAndCollapseFixed(s: string)
    requires Collapsed(s)
    ensures StripAndCollapse(s) == s
  {
    if s != [] {
      assert TailCollapsed(s[1..]) by {
        forall i | 0 <= i < |s[1..]| && IsAsciiSpace(s[1..][i])
          ensures s[1..][i] == ' ' && i + 1 < |s[1..]| && !IsAsciiSpace(s[1..][i + 1])
        {
          assert s[1..][i] == s[i + 1];
          assert i + 2 < |s| ==> s[1..][i + 1] == s[i + 2];
        }
      }
      CollapseRestFixed(s[1..]);
      assert s == [s[0]] + s[1..];
    }
  }

  /** Every character of `w` is ASCII whitespace (vacuously true of ""). */
  predicate AllAsciiSpace(w: string) {
    forall i :: 0 <= i < |w| ==> IsAsciiSpace(w[i])
  }

  /** Collapsing a concatenation: the second part starts with a gap exactly when the first part ends in whitespace. */
  lemma {:induction false} CollapseRestAppend(x: string, y: string, gap: bool)
    ensures CollapseRest(x + y, gap)
         == CollapseRest(x, gap) + CollapseRest(y, if x == [] then gap else IsAsciiSpace(x[|x| - 1]))
  {
    if x == [] {
      assert x + y == y;
    } else {
      assert (x + y)[0] == x[0] && (x + y)[1..] == x[1..] + y;
      CollapseRestAppend(x[1..], y, IsAsciiSpace(x[0]));
      if x[1..] != [] {
        assert x[1..][|x[1..]| - 1] == x[|x| - 1];
      }
    }
  }

  lemma {:induction false} CollapseRestAllSpace(w: string, gap: bool)
    requires AllAsciiSpace(w)
    ensures CollapseRest(w, gap) == []
  {
    if w != [] {
      assert IsAsciiSpace(w[0]);
      assert AllAsciiSpace(w[1..]) by {
        forall i | 0 <= i < |w[1..]| ensures IsAsciiSpace(w[1..][i]) {
          assert w[1..][i] == w[i + 1];
        }
      }
      CollapseRestAllSpace(w[1..], true);
    }
  }

  /** After a gap, the rest of a text with a word in it is one space and then the normalised rest. */
  lemma {:induction false} CollapseRestAfterGap(b: string)
    requires NonSpace(b) != []
    ensures CollapseRest(b, true) == [' '] + StripAndCollapse(b)
  {
    if IsAsciiSpace(b[0]) {
      CollapseRestAfterGap(b[1..]);
    }
  }

  /** Normalising a text that has a word in its first part: that part normalised, then the rest collapsed. */
  lemma {:induction false} StripAndCollapseAppend(x: string, y: string)
    requires NonSpace(x) != []
    ensures StripAndCollapse(x + y) == StripAndCollapse(x) + CollapseRest(y, IsAsciiSpace(x[|x| - 1]))
  {
    assert (x + y)[0] == x[0] && (x + y)[1..] == x[1..] + y;
    if IsAsciiSpace(x[0]) {
      StripAndCollapseAppend(x[1..], y);
      assert x[1..][|x[1..]| - 1] == x[|x| - 1];
    } else {
      CollapseRestAppend(x[1..], y, false);
      if x[1..] != [] {
        assert x[1..][|x[1..]| - 1] == x[|x| - 1];
      }
    }
  }

  /**
   * A run of whitespace between two parts that each contain a word becomes
   * exactly one space: the word break is kept, whatever the run's length.
   */
  lemma StripAndCollapseJoin(a: string, w: string, b: string)
    requires NonSpace(a) != [] && NonSpace(b) != []
    requires w != [] && AllAsciiSpace(w)
    ensures StripAndCollapse(a + w + b) == StripAndCollapse(a) + [' '] + StripAndCollapse(b)
  {
    assert a + w + b == a + (w + b);
    StripAndCollapseAppend(a, w + b);
    CollapseRestAppend(w, b, IsAsciiSpace(a[|a| - 1]));
    CollapseRestAllSpace(w, IsAsciiSpace(a[|a| - 1]));
    assert IsAsciiSpace(w[|w| - 1]);
    CollapseRestAfterGap(b);
  }
}
