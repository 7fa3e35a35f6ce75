/**
  Classification of a resolved icon URI into an icon group: the regular
  expression

      [/](actions|apps|categories|devices|emblems|emotes|mimetypes|places|scalable|status)[/]?(?:[\dx]+|scalable)?[/]

  matched case-insensitively, taking the leftmost match; the captured folder
  name, lower-cased, is looked up in `IconCategory`, and a URI without a match
  is "other".

  `LeftmostMatch` computes the match position by position; `RegexMatchAt`
  states what the expression accepts, with the optional parts written as
  existential choices, and `LeftmostMatchIsRegexMatch` proves the two agree.
*/
module IconClassifier {
  import opened Wrappers
  import opened Text
  import opened IconGroups

  /** The alternatives of the capturing group, in the order written. */
  const Tokens: seq<string> := ["actions", "apps", "categories", "devices", "emblems",
                                "emotes", "mimetypes", "places", "scalable", "status"]

  /** `[\dx]` under the case-insensitive flag. */
  predicate IsDigitOrX(c: char) { ('0' <= c <= '9') || c == 'x' || c == 'X' }

  /** The lower-case word `t` occurs at `s[at..]`, ignoring ASCII case. */
  predicate WordAt(s: string, at: nat, t: string) {
    at + |t| <= |s| && forall k :: 0 <= k < |t| ==> LowerChar(s[at + k]) == t[k]
  }

  /** The end of the run of `[\dx]` characters that starts at `q`. */
  function RunEnd(s: string, q: nat): (r: nat)
    requires q <= |s|
    ensures q <= r <= |s|
    ensures forall k :: q <= k < r ==> IsDigitOrX(s[k])
    ensures r < |s| ==> !IsDigitOrX(s[r])
    decreases |s| - q
  {
    if q < |s| && IsDigitOrX(s[q]) then RunEnd(s, q + 1) else q
  }

  /**
    `[/]?(?:[\dx]+|scalable)?[/]` can match starting at `q`: a slash right away,
    or a digit/x run or the word "scalable" followed by a slash. (An optional
    slash followed by the rest is covered by the first case.)
  */
  predicate TailAt(s: string, q: nat) {
    && q < |s|
    && (|| s[q] == '/'
        || (WordAt(s, q, "scalable") && q + 8 < |s| && s[q + 8] == '/')
        || (RunEnd(s, q) > q && RunEnd(s, q) < |s| && s[RunEnd(s, q)] == '/'))
  }

  /** The first alternative, from index `k` on, that matches at `at` with a valid tail. */
  function FirstToken(s: string, at: nat, k: nat): Option<string>
    decreases |Tokens| - k
  {
    if k >= |Tokens| then None
    else if WordAt(s, at, Tokens[k]) && TailAt(s, at + |Tokens[k]|) then Some(Tokens[k])
    else FirstToken(s, at, k + 1)
  }

  /** What `FirstToken` finds is an alternative that occurs at `at` followed by a valid tail. */
  lemma {:induction false} FirstTokenSound(s: string, at: nat, k: nat, t: string)
    requires FirstToken(s, at, k) == Some(t)
    ensures t in Tokens && WordAt(s, at, t) && TailAt(s, at + |t|)
    decreases |Tokens| - k
  {
    if !(WordAt(s, at, Tokens[k]) && TailAt(s, at + |Tokens[k]|)) {
      FirstTokenSound(s, at, k + 1, t);
    }
  }

  /** The folder name the expression captures when its match starts at position `p`. */
  function MatchAt(s: string, p: nat): Option<string> {
    if p < |s| && s[p] == '/' then FirstToken(s, p + 1, 0) else None
  }

  /** The first position `q` in `p..n-1` where `attempt(q)` succeeds, with what it gives there. */
  function FirstSuccess(attempt: nat -> Option<string>, n: nat, p: nat): Option<(nat, string)>
    decreases n - p
  {
    if p >= n then None
    else match attempt(p)
      case Some(t) => Some((p, t))
      case None => FirstSuccess(attempt, n, p + 1)
  }

  /** A reported position lies in `p..n-1`, succeeds with the reported value, and every earlier one fails. */
  lemma {:induction false} FirstSuccessFound(attempt: nat -> Option<string>, n: nat, p: nat, at: nat, t: string)
    requires FirstSuccess(attempt, n, p) == Some((at, t))
    ensures p <= at < n && attempt(at) == Some(t)
    ensures forall q :: p <= q < at ==> attempt(q) == None
    decreases n - p
  {
    if attempt(p).None? {
      FirstSuccessFound(attempt, n, p + 1, at, t);
    }
  }

  /** Finding nothing means every position in `p..n-1` fails. */
  lemma {:induction false} FirstSuccessNone(attempt: nat -> Option<string>, n: nat, p: nat)
    requires FirstSuccess(attempt, n, p) == None
    ensures forall q :: p <= q < n ==> attempt(q) == None
    decreases n - p
  {
    if p < n {
      FirstSuccessNone(attempt, n, p + 1);
    }
  }

  /** The leftmost position of `s` where the expression matches, with its capture: `s.match(re)`. */
  function LeftmostMatch(s: string): Option<(nat, string)> {
    FirstSuccess((q: nat) => MatchAt(s, q), |s|, 0)
  }

  /**
    A position `LeftmostMatch` reports is one where `MatchAt` succeeds, with
    the capture there, and `MatchAt` fails at every position before it.
  */
  lemma LeftmostMatchFound(s: string, at: nat, t: string)
    requires LeftmostMatch(s) == Some((at, t))
    ensures at < |s| && MatchAt(s, at) == Some(t)
    ensures forall q: nat :: q < at ==> MatchAt(s, q) == None
  {
    var attempt := (q: nat) => MatchAt(s, q);
    assert FirstSuccess(attempt, |s|, 0) == Some((at, t));
    FirstSuccessFound(attempt, |s|, 0, at, t);
    assert attempt(at) == Some(t);
    forall q: nat | q < at ensures MatchAt(s, q) == None {
      assert attempt(q) == None;
    }
  }

  /** When `LeftmostMatch` finds nothing, `MatchAt` fails at every position. */
  lemma LeftmostMatchNone(s: string)
    requires LeftmostMatch(s) == None
    ensures forall q: nat :: q < |s| ==> MatchAt(s, q) == None
  {
    var attempt := (q: nat) => MatchAt(s, q);
    assert FirstSuccess(attempt, |s|, 0) == None;
    FirstSuccessNone(attempt, |s|, 0);
    forall q: nat | q < |s| ensures MatchAt(s, q) == None {
      assert attempt(q) == None;
    }
  }

  /** `match ? match[1].toLowerCase() : 'other'`. */
  function CategoryOf(uri: string): string {
    var r := LeftmostMatch(uri);
    if r.Some? then
      var (p, t) := r.value;
      LeftmostMatchFound(uri, p, t);
      FirstTokenSound(uri, p + 1, 0, t);
      ToLower(uri[p + 1..p + 1 + |t|])
    else "other"
  }

  /** `IconCategory[category] ?? IconGroup.OTHER` */
  function GroupOf(uri: string): int {
    var c := CategoryOf(uri);
    if c in IconCategory then IconCategory[c] else OTHER
  }

  // ---------------------------------------------------------------------------
  // What the expression accepts, stated declaratively

  /** `(?:[\dx]+|scalable)?` matches exactly `s[a..b]`. */
  ghost predicate Middle(s: string, a: nat, b: nat)
    requires a <= b <= |s|
  {
    || a == b
    || (forall k :: a <= k < b ==> IsDigitOrX(s[k]))
    || (b == a + 8 && WordAt(s, a, "scalable"))
  }

  /** `[/]?` matches `s[q..a]`, the middle matches `s[a..b]` and `s[b]` is the closing slash. */
  ghost predicate TailSplit(s: string, q: nat, a: nat, b: nat) {
    && q <= a <= b < |s|
    && (a == q || (a == q + 1 && s[q] == '/'))
    && Middle(s, a, b)
    && s[b] == '/'
  }

  ghost predicate RegexTail(s: string, q: nat) {
    exists a, b :: TailSplit(s, q, a, b)
  }

  /** The expression matches starting at `p`, capturing the alternative `t`. */
  ghost predicate RegexMatchAt(s: string, p: nat, t: string) {
    t in Tokens && p < |s| && s[p] == '/' && WordAt(s, p + 1, t) && RegexTail(s, p + 1 + |t|)
  }

  lemma TailAtIsRegexTail(s: string, q: nat)
    ensures TailAt(s, q) <==> RegexTail(s, q)
  {
    if TailAt(s, q) {
      if s[q] == '/' {
        assert TailSplit(s, q, q, q);
      } else if WordAt(s, q, "scalable") && q + 8 < |s| && s[q + 8] == '/' {
        assert TailSplit(s, q, q, q + 8);
      } else {
        assert TailSplit(s, q, q, RunEnd(s, q));
      }
    }
    if RegexTail(s, q) {
      var a: nat, b: nat :| TailSplit(s, q, a, b);
      if a == q && a < b && forall k :: a <= k < b ==> IsDigitOrX(s[k]) {
        assert RunEnd(s, q) == b;
      }
    }
  }

  /**
    No alternative is a prefix of another, so at most one of them can occur at a
    given position.
  */
  lemma TokensExclusive(s: string, at: nat, t1: string, t2: string)
    requires t1 in Tokens && t2 in Tokens
    requires WordAt(s, at, t1) && WordAt(s, at, t2)
    ensures t1 == t2
  {
    assert t1[0] == LowerChar(s[at]) == t2[0];
    assert t1[1] == LowerChar(s[at + 1]) == t2[1];
    assert t1[2] == LowerChar(s[at + 2]) == t2[2];
    TokensDifferEarly(t1, t2);
  }

  /** Two alternatives that agree on their first three letters are the same alternative. */
  lemma TokensDifferEarly(t1: string, t2: string)
    requires t1 in Tokens && t2 in Tokens
    requires t1[0] == t2[0] && t1[1] == t2[1] && t1[2] == t2[2]
    ensures t1 == t2
  {
  }

  lemma MatchAtSound(s: string, p: nat, t: string)
    requires MatchAt(s, p) == Some(t)
    ensures RegexMatchAt(s, p, t)
  {
    assert p < |s| && s[p] == '/' && FirstToken(s, p + 1, 0) == Some(t);
    FirstTokenSound(s, p + 1, 0, t);
    TailAtIsRegexTail(s, p + 1 + |t|);
    assert RegexTail(s, p + 1 + |t|);
  }

  /** The first alternative from `k` on that matches is the one alternative that does. */
  lemma {:induction false} FirstTokenFinds(s: string, at: nat, k: nat, j: nat)
    requires k <= j < |Tokens|
    requires WordAt(s, at, Tokens[j]) && TailAt(s, at + |Tokens[j]|)
    ensures FirstToken(s, at, k) == Some(Tokens[j])
    decreases j - k
  {
    if WordAt(s, at, Tokens[k]) && TailAt(s, at + |Tokens[k]|) {
      TokensExclusive(s, at, Tokens[k], Tokens[j]);
    } else {
      FirstTokenFinds(s, at, k + 1, j);
    }
  }

  lemma MatchAtComplete(s: string, p: nat, t: string)
    requires RegexMatchAt(s, p, t)
    ensures MatchAt(s, p) == Some(t)
  {
    TailAtIsRegexTail(s, p + 1 + |t|);
    var j :| 0 <= j < |Tokens| && Tokens[j] == t;
    FirstTokenFinds(s, p + 1, 0, j);
  }

  /** At each position, `MatchAt` captures exactly the alternative the expression does. */
  lemma MatchAtIsRegexMatch(s: string, p: nat, t: string)
    ensures MatchAt(s, p) == Some(t) <==> RegexMatchAt(s, p, t)
  {
    if MatchAt(s, p) == Some(t) { MatchAtSound(s, p, t); }
    if RegexMatchAt(s, p, t) { MatchAtComplete(s, p, t); }
  }

  /**
    `LeftmostMatch` finds the leftmost position where the expression matches and
    the alternative it captures there, and finds nothing exactly when the
    expression matches nowhere.
  */
  lemma LeftmostMatchIsRegexMatch(s: string)
    ensures LeftmostMatch(s).None? <==> forall p: nat, t :: !RegexMatchAt(s, p, t)
    ensures LeftmostMatch(s).Some? ==>
              var (p, t) := LeftmostMatch(s).value;
              RegexMatchAt(s, p, t) && forall q: nat, u :: q < p ==> !RegexMatchAt(s, q, u)
  {
    var r := LeftmostMatch(s);
    if r.Some? {
      LeftmostMatchFound(s, r.value.0, r.value.1);
    } else {
      LeftmostMatchNone(s);
    }
    forall q: nat, u | RegexMatchAt(s, q, u) && (r.None? || q < r.value.0)
      ensures false
    {
      MatchAtIsRegexMatch(s, q, u);
    }
    if r.Some? {
      MatchAtIsRegexMatch(s, r.value.0, r.value.1);
    }
  }

  /** The lower-cased capture is the alternative itself, whatever case the URI uses. */
  lemma CategoryIsCapturedToken(uri: string)
    ensures LeftmostMatch(uri).Some? ==> CategoryOf(uri) == LeftmostMatch(uri).value.1
    ensures LeftmostMatch(uri).None? ==> CategoryOf(uri) == "other"
  {
    var r := LeftmostMatch(uri);
    if r.Some? {
      var (p, t) := r.value;
      LeftmostMatchFound(uri, p, t);
      assert p < |uri| && uri[p] == '/' && FirstToken(uri, p + 1, 0) == Some(t);
      FirstTokenSound(uri, p + 1, 0, t);
      assert WordAt(uri, p + 1, t);
      WordAtLowersTo(uri, p + 1, t);
    }
  }

  /** A word found ignoring case lower-cases to the lower-case word. */
  lemma WordAtLowersTo(s: string, at: nat, t: string)
    requires WordAt(s, at, t)
    ensures ToLower(s[at..at + |t|]) == t
  {
    var m := s[at..at + |t|];
    forall k | 0 <= k < |t| ensures ToLower(m)[k] == t[k] {
      assert m[k] == s[at + k];
    }
  }

  /** Every alternative of the expression is a key of `IconCategory`, mapped into ACTIONS..STATUS. */
  lemma TokenCategorized(t: string)
    requires t in Tokens
    ensures t in IconCategory && ACTIONS <= IconCategory[t] <= STATUS
  {
  }

  /**
    A provider icon's group is the `IconCategory` entry of the leftmost captured
    folder name, or OTHER when nothing matches; either way it lies in
    ACTIONS..STATUS, never ALL, CUSTOM or DISTRO.
  */
  lemma GroupOfSpec(uri: string)
    ensures LeftmostMatch(uri).Some? ==>
              var t := LeftmostMatch(uri).value.1;
              t in IconCategory && GroupOf(uri) == IconCategory[t]
    ensures LeftmostMatch(uri).None? ==> GroupOf(uri) == OTHER
    ensures ACTIONS <= GroupOf(uri) <= STATUS
  {
    CategoryIsCapturedToken(uri);
    var r := LeftmostMatch(uri);
    if r.Some? {
      var (p, t) := r.value;
      LeftmostMatchFound(uri, p, t);
      FirstTokenSound(uri, p + 1, 0, t);
      TokenCategorized(t);
    }
  }

  // ---------------------------------------------------------------------------
  // Worked cases

  lemma WordAtLiteral(s: string, at: nat, t: string)
    requires at + |t| <= |s| && s[at..at + |t|] == t
    requires forall k :: 0 <= k < |t| ==> !IsUpperAscii(t[k])
    ensures WordAt(s, at, t)
  {
    forall k | 0 <= k < |t| ensures LowerChar(s[at + k]) == t[k] {
      assert s[at + k] == s[at..at + |t|][k];
    }
  }

  /**
    A size folder named "scalable" is itself a folder name of the expression, so
    in `<prefix>/scalable/actions/...` the folder "scalable" is captured and the
    icon lands in SCALABLE, not in ACTIONS, whenever no match starts inside the
    prefix (a theme directory such as `file:///usr/share/icons/Adwaita`).
  */
  lemma ScalableBeforeActions(pre: string, file: string)
    requires forall q: nat, t :: q < |pre| ==> !RegexMatchAt(pre + "/scalable/actions/" + file, q, t)
    ensures GroupOf(pre + "/scalable/actions/" + file) == SCALABLE
  {
    var s := pre + "/scalable/actions/" + file;
    var n := |pre|;
    assert s[n..n + 18] == "/scalable/actions/";
    assert s[n] == '/' && s[n + 9] == '/';
    assert s[n + 1..n + 9] == "scalable";
    WordAtLiteral(s, n + 1, "scalable");
    assert TailSplit(s, n + 9, n + 9, n + 9);
    assert RegexMatchAt(s, n, "scalable");
    LeftmostMatchIsRegexMatch(s);
    var (p, t) := LeftmostMatch(s).value;
    assert p == n;
    TokensExclusive(s, n + 1, t, "scalable");
    GroupOfSpec(s);
  }

  /** A size glued to the folder name (`/apps48/`, `/apps32x32/`) still counts as that folder. */
  lemma GluedSizeAccepted(s: string, p: nat, b: nat)
    requires p + 5 < b < |s| && s[p..p + 5] == "/apps"
    requires forall k :: p + 5 <= k < b ==> IsDigitOrX(s[k])
    requires s[b] == '/'
    ensures RegexMatchAt(s, p, "apps")
  {
    assert s[p + 1..p + 5] == s[p..p + 5][1..] == "apps";
    WordAtLiteral(s, p + 1, "apps");
    assert s[p] == s[p..p + 5][0] == '/';
    assert TailSplit(s, p + 5, p + 5, b);
  }

  /** A URI without any slash has no match and is OTHER. */
  lemma NoSlashIsOther(uri: string)
    requires forall k :: 0 <= k < |uri| ==> uri[k] != '/'
    ensures GroupOf(uri) == OTHER
  {
    LeftmostMatchIsRegexMatch(uri);
    GroupOfSpec(uri);
  }
}
