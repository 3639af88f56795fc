/**
 * String helpers shared by the navigation components: JavaScript's
 * `startsWith`, `includes`, an ASCII `toLowerCase`, and the label slug
 * `label.toLowerCase().replace(/\s+/g, '-')` used for panel and menu ids.
 */
module Text {

  /** `s.startsWith(prefix)` */
  predicate StartsWith(s: string, prefix: string)
  {
    |prefix| <= |s| && s[..|prefix|] == prefix
  }

  /** `s.includes(sub)`: `sub` occurs at some position of `s`. */
  predicate Contains(s: string, sub: string)
    decreases |s|
  {
    StartsWith(s, sub) || (|s| > 0 && Contains(s[1..], sub))
  }

  /** The position-based reading of `Contains`. */
  lemma {:induction false} ContainsAt(s: string, sub: string)
    ensures Contains(s, sub) <==> exists i :: 0 <= i <= |s| - |sub| && StartsWith(s[i..], sub)
    decreases |s|
  {
    if StartsWith(s, sub) {
      assert s[0..] == s;
    } else if |s| > 0 {
      ContainsAt(s[1..], sub);
      if Contains(s[1..], sub) {
        var i :| 0 <= i <= |s[1..]| - |sub| && StartsWith(s[1..][i..], sub);
        assert s[1..][i..] == s[i + 1..];
      }
      if exists i :: 0 <= i <= |s| - |sub| && StartsWith(s[i..], sub) {
        var i :| 0 <= i <= |s| - |sub| && StartsWith(s[i..], sub);
        assert i != 0 by { assert s[0..] == s; }
        assert s[1..][i - 1..] == s[i..];
      }
    }
  }

  /** A suffix of a string contains whatever the suffix contains. */
  lemma {:induction false} ContainsSuffix(s: string, k: nat, sub: string)
    requires k <= |s|
    requires Contains(s[k..], sub)
    ensures Contains(s, sub)
    decreases k
  {
    if k > 0 {
      assert s[1..][k - 1..] == s[k..];
      ContainsSuffix(s[1..], k - 1, sub);
    }
  }

  /** Every string contains the empty string. */
  lemma ContainsEmpty(s: string)
    ensures Contains(s, "")
  {
    assert StartsWith(s, "");
  }

  /** ASCII letters are lowered; every other character is kept. */
  function LowerChar(c: char): (r: char)
    ensures 'A' <= c <= 'Z' ==> r as int == c as int + 32
    ensures !('A' <= c <= 'Z') ==> r == c
  {
    if 'A' <= c <= 'Z' then (c as int + 32) as char else c
  }

  /** `toLowerCase`, restricted to ASCII upper-case letters. */
  function Lower(s: string): (r: string)
    ensures |r| == |s|
    ensures forall i :: 0 <= i < |s| ==> r[i] == LowerChar(s[i])
    ensures forall i :: 0 <= i < |r| ==> !('A' <= r[i] <= 'Z')
  {
    seq(|s|, i requires 0 <= i < |s| => LowerChar(s[i]))
  }

  /** The ASCII characters matched by the regular-expression class `\s`. */
  predicate IsSpace(c: char)
  {
    c == ' ' || c == '\t' || c == '\n' || c == '\r' || c == '\U{B}' || c == '\U{C}'
  }

  /** Drops the whitespace run at the front of `s`. */
  function DropSpaces(s: string): (r: string)
    ensures |r| <= |s|
    ensures |s| > 0 && IsSpace(s[0]) ==> |r| < |s|
    ensures r == [] || !IsSpace(r[0])
  {
    if s != [] && IsSpace(s[0]) then DropSpaces(s[1..]) else s
  }

  lemma {:induction false} DropSpacesIsSuffix(s: string)
    ensures DropSpaces(s) == s[|s| - |DropSpaces(s)|..]
  {
    if s != [] && IsSpace(s[0]) {
      DropSpacesIsSuffix(s[1..]);
    }
  }

  /** `s.replace(/\s+/g, '-')`: every maximal whitespace run becomes one `-`. */
  function CollapseSpaces(s: string): (r: string)
    ensures forall i :: 0 <= i < |r| ==> !IsSpace(r[i])
    ensures (forall i :: 0 <= i < |s| ==> !IsSpace(s[i])) ==> r == s
    decreases |s|
  {
    if s == [] then []
    else if IsSpace(s[0]) then "-" + CollapseSpaces(DropSpaces(s))
    else [s[0]] + CollapseSpaces(s[1..])
  }

  /** `label.toLowerCase().replace(/\s+/g, '-')`, the id of a drill-down panel or mega menu. */
  function Slug(name: string): (r: string)
    ensures forall i :: 0 <= i < |r| ==> !IsSpace(r[i]) && !('A' <= r[i] <= 'Z')
  {
    SlugOfLower(Lower(name));
    CollapseSpaces(Lower(name))
  }

  /** Collapsing whitespace never introduces an upper-case letter. */
  lemma {:induction false} SlugOfLower(s: string)
    requires forall i :: 0 <= i < |s| ==> !('A' <= s[i] <= 'Z')
    ensures forall i :: 0 <= i < |CollapseSpaces(s)| ==> !('A' <= CollapseSpaces(s)[i] <= 'Z')
    decreases |s|
  {
    if s == [] {
    } else if IsSpace(s[0]) {
      var d := DropSpaces(s);
      DropSpacesIsSuffix(s);
      SlugOfLower(d);
    } else {
      SlugOfLower(s[1..]);
    }
  }

  /** Lowering a string character by character. */
  lemma LowerOf(s: string, t: string)
    requires |s| == |t| && forall i :: 0 <= i < |s| ==> LowerChar(s[i]) == t[i]
    ensures Lower(s) == t
  {
  }

  /** Lowering distributes over concatenation. */
  lemma LowerConcat(a: string, b: string)
    ensures Lower(a + b) == Lower(a) + Lower(b)
  {
  }

  /** A whitespace run is dropped up to the first character that is not whitespace. */
  lemma {:induction false} DropSpacesRun(ws: string, rest: string)
    requires forall i :: 0 <= i < |ws| ==> IsSpace(ws[i])
    requires rest == [] || !IsSpace(rest[0])
    ensures DropSpaces(ws + rest) == rest
    decreases |ws|
  {
    if ws == [] {
      assert ws + rest == rest;
    } else {
      var t := ws[1..];
      forall i | 0 <= i < |t| ensures IsSpace(t[i]) {
        assert t[i] == ws[i + 1];
      }
      DropSpacesRun(t, rest);
      assert (ws + rest)[1..] == t + rest;
    }
  }

  /**
   * A word without whitespace followed by a non-empty whitespace run keeps
   * the word and turns the whole run into one `-`, whatever follows it.
   */
  lemma {:induction false} CollapseRun(w: string, ws: string, rest: string)
    requires forall i :: 0 <= i < |w| ==> !IsSpace(w[i])
    requires |ws| > 0 && forall i :: 0 <= i < |ws| ==> IsSpace(ws[i])
    requires rest == [] || !IsSpace(rest[0])
    ensures CollapseSpaces(w + ws + rest) == w + "-" + CollapseSpaces(rest)
    decreases |w|
  {
    if w == [] {
      assert w + ws + rest == ws + rest;
      CollapseLeadingRun(ws, rest);
    } else {
      var t := w[1..];
      forall i | 0 <= i < |t| ensures !IsSpace(t[i]) {
        assert t[i] == w[i + 1];
      }
      CollapseRun(t, ws, rest);
      CollapseRunStep(w, ws, rest, CollapseSpaces(rest));
    }
  }

  /** The inductive step of `CollapseRun`: a first character that is not whitespace is kept. */
  lemma CollapseRunStep(w: string, ws: string, rest: string, r: string)
    requires |w| > 0 && !IsSpace(w[0])
    requires CollapseSpaces(w[1..] + ws + rest) == w[1..] + "-" + r
    ensures CollapseSpaces(w + ws + rest) == w + "-" + r
  {
    var s := w + ws + rest;
    assert s[0] == w[0] && s[1..] == w[1..] + ws + rest;
    assert w + "-" + r == [w[0]] + (w[1..] + "-" + r);
  }

  /** A leading whitespace run becomes one `-`. */
  lemma CollapseLeadingRun(ws: string, rest: string)
    requires |ws| > 0 && forall i :: 0 <= i < |ws| ==> IsSpace(ws[i])
    requires rest == [] || !IsSpace(rest[0])
    ensures CollapseSpaces(ws + rest) == "-" + CollapseSpaces(rest)
  {
    assert (ws + rest)[0] == ws[0];
    DropSpacesRun(ws, rest);
  }

  /** One space between two words without whitespace becomes one `-`. */
  lemma {:induction false} CollapseOneSpace(a: string, b: string)
    requires forall i :: 0 <= i < |a| ==> !IsSpace(a[i])
    requires forall i :: 0 <= i < |b| ==> !IsSpace(b[i])
    ensures CollapseSpaces(a + " " + b) == a + "-" + b
  {
    assert IsSpace(" "[0]);
    CollapseRun(a, " ", b);
  }
}
