/**
  String helpers shared by the classifier and the icon-picker filter: ASCII case
  folding (non-ASCII letters are left as they are, where `toLowerCase` folds all of
  Unicode), the whitespace trimming of `String.prototype.trim`, and substring search (`includes`).
*/
module Text {

  predicate IsUpperAscii(c: char) { 'A' <= c <= 'Z' }

  /** Lower-cases one ASCII letter; every other character is kept. */
  function LowerChar(c: char): char {
    if IsUpperAscii(c) then (c as int + 32) as char else c
  }

  /** `toLowerCase`, restricted to ASCII letters. */
  function ToLower(s: string): (r: string)
    ensures |r| == |s|
    ensures forall k :: 0 <= k < |s| ==> r[k] == LowerChar(s[k])
    ensures forall k :: 0 <= k < |r| ==> !IsUpperAscii(r[k])
  {
    if s == [] then [] else [LowerChar(s[0])] + ToLower(s[1..])
  }

  /** The characters ECMAScript's `trim` removes: WhiteSpace and LineTerminator. */
  predicate IsJsWhitespace(c: char) {
    || c == '\t' || c == '\n' || c == '\U{000B}' || c == '\U{000C}' || c == '\r' || c == ' '
    || c == '\U{00A0}' || c == '\U{1680}' || ('\U{2000}' <= c <= '\U{200A}')
    || c == '\U{2028}' || c == '\U{2029}' || c == '\U{202F}' || c == '\U{205F}'
    || c == '\U{3000}' || c == '\U{FEFF}'
  }

  /** The end of the whitespace run of `s` that starts at `i`. */
  function LeadingEnd(s: string, i: nat): (a: nat)
    requires i <= |s|
    ensures i <= a <= |s|
    ensures forall k :: i <= k < a ==> IsJsWhitespace(s[k])
    ensures a < |s| ==> !IsJsWhitespace(s[a])
    decreases |s| - i
  {
    if i < |s| && IsJsWhitespace(s[i]) then LeadingEnd(s, i + 1) else i
  }

  /** The start of the whitespace run of `s` that ends at `j`, going no lower than `a`. */
  function TrailingStart(s: string, a: nat, j: nat): (b: nat)
    requires a <= j <= |s|
    ensures a <= b <= j
    ensures forall k :: b <= k < j ==> IsJsWhitespace(s[k])
    ensures b > a ==> !IsJsWhitespace(s[b - 1])
  {
    if j > a && IsJsWhitespace(s[j - 1]) then TrailingStart(s, a, j - 1) else j
  }

  /** `r` is `s` with only whitespace cut from before offset `a` and after `a + |r|`. */
  ghost predicate CutAt(s: string, r: string, a: int) {
    && 0 <= a <= |s| - |r| && r == s[a..a + |r|]
    && (forall k :: 0 <= k < a ==> IsJsWhitespace(s[k]))
    && (forall k :: a + |r| <= k < |s| ==> IsJsWhitespace(s[k]))
  }

  /**
    `trim`: the result is the infix of `s` left once the whitespace run at each
    end is cut off, and it neither starts nor ends with whitespace.
  */
  function Trim(s: string): (r: string)
    ensures exists a :: CutAt(s, r, a)
    ensures r != [] ==> !IsJsWhitespace(r[0]) && !IsJsWhitespace(r[|r| - 1])
  {
    var a := LeadingEnd(s, 0);
    var b := TrailingStart(s, a, |s|);
    assert CutAt(s, s[a..b], a);
    s[a..b]
  }

  /** A string that neither starts nor ends with whitespace is its own trim. */
  lemma TrimNoEdges(s: string)
    requires s != [] ==> !IsJsWhitespace(s[0]) && !IsJsWhitespace(s[|s| - 1])
    ensures Trim(s) == s
  {
    assert LeadingEnd(s, 0) == 0;
    assert TrailingStart(s, 0, |s|) == |s|;
    assert s[0..|s|] == s;
  }

  /** Trimming a trimmed string changes nothing. */
  lemma TrimIdempotent(s: string)
    ensures Trim(Trim(s)) == Trim(s)
  {
    TrimNoEdges(Trim(s));
  }

  /** Lower-casing a lower-cased string changes nothing. */
  lemma ToLowerIdempotent(s: string)
    ensures ToLower(ToLower(s)) == ToLower(s)
  {
    var t := ToLower(s);
    assert forall k :: 0 <= k < |t| ==> ToLower(t)[k] == LowerChar(t[k]) == t[k];
  }

  /** Case folding never turns a blank into a non-blank or back. */
  lemma LowerCharKeepsWhitespace(c: char)
    ensures IsJsWhitespace(LowerChar(c)) == IsJsWhitespace(c)
  {
  }

  /** `s.includes(q)`, computed by trying each start position in turn. */
  function Includes(s: string, q: string): bool
    decreases |s|
  {
    |q| <= |s| && (s[..|q|] == q || Includes(s[1..], q))
  }

  /** `q` occurs in `s` starting at offset `k`. */
  ghost predicate OccursAt(s: string, q: string, k: int) {
    0 <= k <= |s| - |q| && s[k..k + |q|] == q
  }

  /** An occurrence at `k + 1` in `s` is an occurrence at `k` in `s[1..]`, and back. */
  lemma OccursShift(s: string, q: string, k: nat)
    requires s != []
    ensures OccursAt(s, q, k + 1) <==> OccursAt(s[1..], q, k)
  {
    if k + 1 <= |s| - |q| {
      assert s[k + 1..k + 1 + |q|] == s[1..][k..k + |q|];
    }
  }

  /** `Includes` holds exactly when `q` occurs in `s` at some offset. */
  lemma {:induction false} IncludesIff(s: string, q: string)
    ensures Includes(s, q) <==> exists k :: OccursAt(s, q, k)
    decreases |s|
  {
    if |q| <= |s| && s[..|q|] != q {
      IncludesIff(s[1..], q);
      if Includes(s[1..], q) {
        var k :| OccursAt(s[1..], q, k);
        OccursShift(s, q, k);
      } else {
        forall k | OccursAt(s, q, k) ensures false {
          if k > 0 {
            OccursShift(s, q, k - 1);
          }
        }
      }
    } else if |q| <= |s| {
      assert OccursAt(s, q, 0);
    }
  }

  /** The empty query occurs in every string. */
  lemma IncludesEmpty(s: string)
    ensures Includes(s, [])
  {
  }
}
