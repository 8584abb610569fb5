/** src/ai_api/observability/logging.py: no configured secret and no issued token
    may reach a log line or an error message. */
module Redaction {

  const PLACEHOLDER := "***"

  /* ---------- The token pattern ---------- */

  const MIN_BODY := 16

  /** [A-Za-z0-9_\-] */
  predicate IsTokenChar(c: char) {
    'A' <= c <= 'Z' || 'a' <= c <= 'z' || '0' <= c <= '9' || c == '_' || c == '-'
  }

  /** aiapi_, sess_ or invite_ at the front of s; at most one of them fits. */
  function TagLength(s: string): nat {
    if "aiapi_" <= s then 6 else if "sess_" <= s then 5 else if "invite_" <= s then 7 else 0
  }

  /** How far a greedy run of token characters reaches. */
  function RunLength(s: string): (n: nat)
    ensures n <= |s|
    ensures forall i | 0 <= i < n :: IsTokenChar(s[i])
    ensures n < |s| ==> !IsTokenChar(s[n])
  {
    if s == "" || !IsTokenChar(s[0]) then 0 else 1 + RunLength(s[1..])
  }

  /** The length of the greedy match at the front of s, or 0. */
  function TokenLength(s: string): (n: nat)
    ensures n <= |s|
  {
    var tag := TagLength(s);
    if tag == 0 then 0
    else
      var body := RunLength(s[tag..]);
      if body < MIN_BODY then 0 else tag + body
  }

  /** The language of the pattern, without a scanner. */
  ghost predicate TokenShaped(t: string) {
    exists tag: string ::
      && tag in {"aiapi_", "sess_", "invite_"}
      && tag <= t
      && |t| >= |tag| + 16
      && forall i | |tag| <= i < |t| :: IsTokenChar(t[i])
  }

  /* ---------- Substitution ---------- */

  predicate OccursAt(s: string, t: string, i: nat) {
    i <= |s| && t <= s[i..]
  }

  ghost predicate Contains(s: string, t: string) {
    exists i: nat :: OccursAt(s, t, i)
  }

  ghost predicate HasToken(s: string) {
    exists t :: TokenShaped(t) && Contains(s, t)
  }

  /** What a pass looks for: one secret, as str.replace does, or the token pattern. */
  datatype Pattern = Secret(text: string) | Token

  predicate ValidPattern(p: Pattern) {
    p.Secret? ==> p.text != ""
  }

  /** The length of the match of p at the front of s, or 0. */
  function MatchLength(p: Pattern, s: string): (n: nat)
    ensures n <= |s|
  {
    match p
    case Secret(text) => if text <= s then |text| else 0
    case Token => TokenLength(s)
  }

  /** Leftmost non-overlapping matches, each replaced by the placeholder. */
  function Substitute(p: Pattern, s: string): string
    decreases |s|
  {
    if s == "" then ""
    else
      var n := MatchLength(p, s);
      if n > 0 then PLACEHOLDER + Substitute(p, s[n..])
      else [s[0]] + Substitute(p, s[1..])
  }

  /** A text cut into parts that stay and matches that do not. */
  datatype Cut = End(kept: string) | Hit(kept: string, hit: string, rest: Cut) {
    function Original(): string {
      if End? then kept else kept + (hit + rest.Original())
    }

    function Covered(): string {
      if End? then kept else kept + (PLACEHOLDER + rest.Covered())
    }

    ghost predicate HitsIn(p: Pattern) {
      Hit? ==> InLanguage(p, hit) && rest.HitsIn(p)
    }

    /** What stays holds no start of a match, and a token is taken to its end. */
    ghost predicate Thorough(p: Pattern) {
      && (forall i | 0 <= i < |kept| :: NothingAt(p, Original()[i..]))
      && (Hit? && p.Token? && rest.Original() != "" ==> !IsTokenChar(rest.Original()[0]))
      && (Hit? ==> rest.Thorough(p))
    }
  }

  /** No match of p is at the front of s. */
  ghost predicate NothingAt(p: Pattern, s: string) {
    forall t | t <= s :: !InLanguage(p, t)
  }

  ghost predicate InLanguage(p: Pattern, hit: string) {
    if p.Secret? then hit == p.text else TokenShaped(hit)
  }

  /** What _scrub computes. */
  function Scrubbed(value: string, secrets: seq<string>): string {
    Substitute(Token, AfterSecrets(value, secrets))
  }

  function AfterSecrets(value: string, secrets: seq<string>): string {
    if secrets == [] then value
    else
      var before := AfterSecrets(value, secrets[..|secrets| - 1]);
      var s := secrets[|secrets| - 1];
      if s != "" then Substitute(Secret(s), before) else before
  }

  /* ---------- Which texts a placeholder can never complete ---------- */

  /** No end of t, and no three characters of t, can come from a placeholder. */
  ghost predicate PlaceholderProof(t: string) {
    && t != ""
    && t[0] != '*'
    && TailProof(t)
  }

  ghost predicate TailProof(t: string) {
    && (t != "" ==> t[|t| - 1] != '*')
    && !Contains(t, PLACEHOLDER)
  }

  lemma TailOfTailProof(t: string)
    requires TailProof(t) && t != ""
    ensures TailProof(t[1..])
  {
    if i: nat :| OccursAt(t[1..], PLACEHOLDER, i) {
      assert t[1..][i..] == t[i + 1..];
      assert OccursAt(t, PLACEHOLDER, i + 1);
    }
  }

  lemma FrontOfPlaceholder(t: string, rest: string)
    requires t != "" && t <= PLACEHOLDER + rest
    ensures !TailProof(t)
  {
    var out := PLACEHOLDER + rest;
    if |t| < 3 {
      assert t[|t| - 1] == out[|t| - 1];
    } else {
      assert t[0..][..3] == out[..3] == PLACEHOLDER;
      assert OccursAt(t, PLACEHOLDER, 0);
    }
  }

  lemma OccursSkips(a: string, b: string, t: string, i: nat)
    requires OccursAt(a + b, t, i) && i >= |a|
    ensures OccursAt(b, t, i - |a|)
  {
    assert (a + b)[i..] == b[i - |a|..];
  }

  /** Text of this kind at the front of the output was at the front of the input,
      and no match started there. */
  lemma {:induction false} PrefixWasThere(p: Pattern, s: string, t: string)
    requires ValidPattern(p) && TailProof(t) && t <= Substitute(p, s)
    ensures t <= s && (t != "" ==> MatchLength(p, s) == 0)
    decreases |s|
  {
    if t == "" {
    } else {
      var n := MatchLength(p, s);
      if n > 0 {
        FrontOfPlaceholder(t, Substitute(p, s[n..]));
        assert false;
      }
      TailOfTailProof(t);
      assert ([s[0]] + Substitute(p, s[1..]))[1..] == Substitute(p, s[1..]);
      PrefixWasThere(p, s[1..], t[1..]);
      assert t == [t[0]] + t[1..] && s == [s[0]] + s[1..];
    }
  }

  lemma NotInsidePlaceholder(rest: string, t: string, i: nat)
    requires PlaceholderProof(t) && OccursAt(PLACEHOLDER + rest, t, i) && i > 0
    ensures i >= 3
  {
    assert (PLACEHOLDER + rest)[i..][0] == t[0];
  }

  predicate EndsWith(s: string, r: string) {
    |r| <= |s| && s[|s| - |r|..] == r
  }

  lemma EndsWithLater(s: string, n: nat, r: string)
    requires n <= |s| && EndsWith(s[n..], r)
    ensures EndsWith(s, r)
  {
    assert s[n..][|s| - n - |r|..] == s[|s| - |r|..];
  }

  lemma FirstStep(p: Pattern, s: string, t: string, i: nat) returns (n: nat, i': nat)
    requires PlaceholderProof(t) && OccursAt(Substitute(p, s), t, i) && i > 0
    ensures 0 < n <= |s| && OccursAt(Substitute(p, s[n..]), t, i')
  {
    n := MatchLength(p, s);
    if n > 0 {
      NotInsidePlaceholder(Substitute(p, s[n..]), t, i);
      OccursSkips(PLACEHOLDER, Substitute(p, s[n..]), t, i);
      i' := i - 3;
    } else {
      n := 1;
      OccursSkips([s[0]], Substitute(p, s[1..]), t, i);
      i' := i - 1;
    }
  }

  /** Text of this kind anywhere in the output starts some rest of the input at which
      the pattern does not match. */
  lemma {:induction false} OccurrenceWasThere(p: Pattern, s: string, t: string, i: nat) returns (r: string)
    requires ValidPattern(p) && PlaceholderProof(t) && OccursAt(Substitute(p, s), t, i)
    ensures EndsWith(s, r) && t <= r && MatchLength(p, r) == 0
    decreases |s|
  {
    if i == 0 {
      r := s;
      PrefixWasThere(p, s, t);
    } else {
      var n, i' := FirstStep(p, s, t, i);
      var rest := s[n..];
      r := OccurrenceWasThere(p, rest, t, i');
      EndsWithLater(s, n, r);
    }
  }

  /** A substitution never creates such text. */
  lemma SubstitutionCreatesNothing(p: Pattern, s: string, t: string)
    requires ValidPattern(p) && PlaceholderProof(t) && Contains(Substitute(p, s), t)
    ensures Contains(s, t)
  {
    var i: nat :| OccursAt(Substitute(p, s), t, i);
    var r := OccurrenceWasThere(p, s, t, i);
    assert OccursAt(s, t, |s| - |r|);
  }

  /** Whatever always makes the pattern fire is gone after the pass. */
  lemma SubstitutionRemoves(p: Pattern, s: string, t: string)
    requires ValidPattern(p) && PlaceholderProof(t)
    requires forall u | t <= u :: MatchLength(p, u) > 0
    ensures !Contains(Substitute(p, s), t)
  {
    if i: nat :| OccursAt(Substitute(p, s), t, i) {
      var r := OccurrenceWasThere(p, s, t, i);
    }
  }

  /* ---------- Tokens ---------- */

  lemma PlaceholderHasStar(t: string, i: nat)
    requires OccursAt(t, PLACEHOLDER, i)
    ensures '*' in t
  {
    assert t[i..][0] == t[i];
  }

  lemma TokenIsPlaceholderProof(t: string)
    requires TokenShaped(t)
    ensures PlaceholderProof(t)
  {
    assert '*' !in t;
    if i: nat :| OccursAt(t, PLACEHOLDER, i) {
      PlaceholderHasStar(t, i);
    }
  }

  lemma RunCovers(s: string, n: nat)
    requires n <= |s| && forall i | 0 <= i < n :: IsTokenChar(s[i])
    ensures RunLength(s) >= n
  {
  }

  lemma TagFits(tag: string, u: string)
    requires tag in {"aiapi_", "sess_", "invite_"} && tag <= u
    ensures TagLength(u) == |tag|
  {
    assert u[0] == tag[0];
  }

  /** The scanner fires wherever a token-shaped text starts. */
  lemma TokenAlwaysFires(t: string, u: string)
    requires TokenShaped(t) && t <= u
    ensures MatchLength(Token, u) > 0
  {
    var tag: string :|
      && tag in {"aiapi_", "sess_", "invite_"}
      && tag <= t
      && |t| >= |tag| + MIN_BODY
      && forall i | |tag| <= i < |t| :: IsTokenChar(t[i]);
    TagFits(tag, u);
    var body := u[|tag|..];
    forall i | 0 <= i < MIN_BODY ensures IsTokenChar(body[i]) {
      assert body[i] == t[|tag| + i];
    }
    RunCovers(body, MIN_BODY);
  }

  function TagOf(s: string): (tag: string)
    requires TagLength(s) > 0
    ensures tag in {"aiapi_", "sess_", "invite_"} && tag <= s && |tag| == TagLength(s)
  {
    if "aiapi_" <= s then "aiapi_" else if "sess_" <= s then "sess_" else "invite_"
  }

  lemma MatchIsTokenShaped(s: string)
    requires TokenLength(s) > 0
    ensures TokenShaped(s[..TokenLength(s)])
  {
    var tag, n := TagOf(s), TokenLength(s);
    var t := s[..n];
    forall i | |tag| <= i < n ensures IsTokenChar(t[i]) {
      assert t[i] == s[|tag|..][i - |tag|];
    }
    assert tag <= t;
  }

  lemma TokenPassLeavesNone(s: string)
    ensures !HasToken(Substitute(Token, s))
  {
    if t :| TokenShaped(t) && Contains(Substitute(Token, s), t) {
      TokenIsPlaceholderProof(t);
      forall u | t <= u ensures MatchLength(Token, u) > 0 {
        TokenAlwaysFires(t, u);
      }
      SubstitutionRemoves(Token, s, t);
    }
  }

  lemma MatchInLanguage(p: Pattern, s: string)
    requires MatchLength(p, s) > 0
    ensures InLanguage(p, s[..MatchLength(p, s)])
  {
    if p.Token? {
      MatchIsTokenShaped(s);
    }
  }

  lemma SubstituteMiss(p: Pattern, c: char, rest: string)
    requires MatchLength(p, [c] + rest) == 0
    ensures Substitute(p, [c] + rest) == [c] + Substitute(p, rest)
  {
    assert ([c] + rest)[1..] == rest;
  }

  lemma SubstituteMatch(p: Pattern, hit: string, rest: string)
    requires hit != "" && MatchLength(p, hit + rest) == |hit|
    ensures Substitute(p, hit + rest) == PLACEHOLDER + Substitute(p, rest)
    ensures InLanguage(p, hit)
  {
    assert (hit + rest)[|hit|..] == rest && (hit + rest)[..|hit|] == hit;
    MatchInLanguage(p, hit + rest);
  }

  /** Nothing but matches is lost: only the matches turn into placeholders, the leftmost
      first and each as long as it can be. */
  lemma {:induction false} OnlyMatchesReplaced(p: Pattern, s: string) returns (cut: Cut)
    requires ValidPattern(p)
    ensures cut.Original() == s && cut.Covered() == Substitute(p, s) && cut.HitsIn(p) && cut.Thorough(p)
    decreases |s|
  {
    if s == "" {
      cut := End("");
    } else {
      var n := MatchLength(p, s);
      var k := if n > 0 then n else 1;
      var front, left := s[..k], s[k..];
      assert s == front + left;
      var rest := OnlyMatchesReplaced(p, left);
      if n > 0 {
        SubstituteMatch(p, front, left);
        HitAtFront(front, rest);
        if p.Token? && n < |s| {
          MatchIsLongest(p, s);
        }
        cut := Hit("", front, rest);
      } else {
        assert front == [s[0]];
        SubstituteMiss(p, s[0], left);
        KeepOneMore(p, s[0], rest);
        NoMatchNothing(p, s);
        KeepsThorough(p, s[0], rest);
        cut := rest.(kept := [s[0]] + rest.kept);
      }
    }
  }

  lemma MatchIsLongest(p: Pattern, s: string)
    requires MatchLength(p, s) > 0 && p.Token? && MatchLength(p, s) < |s|
    ensures !IsTokenChar(s[MatchLength(p, s)])
  {
    var tag := TagLength(s);
    assert s[tag..][RunLength(s[tag..])] == s[MatchLength(p, s)];
  }

  lemma NoMatchNothing(p: Pattern, s: string)
    requires ValidPattern(p) && MatchLength(p, s) == 0
    ensures NothingAt(p, s)
  {
    forall t | t <= s ensures !InLanguage(p, t) {
      if p.Token? && TokenShaped(t) {
        TokenAlwaysFires(t, s);
      }
    }
  }

  lemma KeepsThorough(p: Pattern, c: char, cut: Cut)
    requires cut.Thorough(p) && NothingAt(p, [c] + cut.Original())
    ensures cut.(kept := [c] + cut.kept).Thorough(p)
  {
    var more := cut.(kept := [c] + cut.kept);
    KeepOneMore(p, c, cut);
    forall i | 0 <= i < |more.kept| ensures NothingAt(p, more.Original()[i..]) {
      if i == 0 {
        assert more.Original()[0..] == more.Original();
      } else {
        assert more.Original()[i..] == cut.Original()[i - 1..];
      }
    }
  }

  lemma HitAtFront(hit: string, rest: Cut)
    ensures var cut := Hit("", hit, rest);
      cut.Original() == hit + rest.Original() && cut.Covered() == PLACEHOLDER + rest.Covered()
  {
    assert "" + (hit + rest.Original()) == hit + rest.Original();
    assert "" + (PLACEHOLDER + rest.Covered()) == PLACEHOLDER + rest.Covered();
  }

  lemma KeepOneMore(p: Pattern, c: char, cut: Cut)
    ensures var more := cut.(kept := [c] + cut.kept);
      && more.Original() == [c] + cut.Original()
      && more.Covered() == [c] + cut.Covered()
      && more.HitsIn(p) == cut.HitsIn(p)
  {
    if cut.Hit? {
      Associate([c], cut.kept, cut.hit + cut.rest.Original());
      Associate([c], cut.kept, PLACEHOLDER + cut.rest.Covered());
    }
  }

  lemma Associate(a: string, b: string, c: string)
    ensures (a + b) + c == a + (b + c)
  {
  }

  /* ---------- Main results ---------- */

  /** A secret that redaction removes whatever the text: no placeholder can complete
      it, or the token pass would break it up in any case. */
  ghost predicate Removable(secret: string) {
    secret == "" || PlaceholderProof(secret) || HasToken(secret)
  }

  lemma {:induction false} SecretsGone(value: string, secrets: seq<string>, k: nat)
    requires k < |secrets| && PlaceholderProof(secrets[k])
    ensures !Contains(AfterSecrets(value, secrets), secrets[k])
    decreases |secrets|
  {
    var last := secrets[|secrets| - 1];
    var front := secrets[..|secrets| - 1];
    var before := AfterSecrets(value, front);
    if k == |secrets| - 1 {
      SubstitutionRemoves(Secret(last), before, last);
    } else {
      SecretsGone(value, front, k);
      assert front[k] == secrets[k];
      if last != "" && Contains(AfterSecrets(value, secrets), secrets[k]) {
        SubstitutionCreatesNothing(Secret(last), before, secrets[k]);
      }
    }
  }

  lemma ContainsTransitive(s: string, t: string, u: string)
    requires Contains(s, t) && Contains(t, u)
    ensures Contains(s, u)
  {
    var i: nat :| OccursAt(s, t, i);
    var j: nat :| OccursAt(t, u, j);
    assert s[i..][j..] == s[i + j..];
    assert u <= t[j..] <= s[i..][j..];
    assert OccursAt(s, u, i + j);
  }

  /** A removable secret is removed whatever the text, and whatever other secrets come
      before it and after it. */
  lemma SecretGone(value: string, secrets: seq<string>, s: string)
    requires s in secrets && s != "" && Removable(s)
    ensures !Contains(Scrubbed(value, secrets), s)
  {
    var mid, out := AfterSecrets(value, secrets), Scrubbed(value, secrets);
    TokenPassLeavesNone(mid);
    if Contains(out, s) {
      if HasToken(s) {
        var t :| TokenShaped(t) && Contains(s, t);
        ContainsTransitive(out, s, t);
      } else {
        var k: nat :| k < |secrets| && secrets[k] == s;
        SecretsGone(value, secrets, k);
        SubstitutionCreatesNothing(Token, mid, s);
      }
      assert false;
    }
  }

  /** After scrubbing, for any text and any list of removable secrets in any order,
      nothing token-shaped and no secret is left. */
  lemma NothingLeft(value: string, secrets: seq<string>)
    requires forall s | s in secrets :: Removable(s)
    ensures !HasToken(Scrubbed(value, secrets))
    ensures forall s | s in secrets && s != "" :: !Contains(Scrubbed(value, secrets), s)
  {
    TokenPassLeavesNone(AfterSecrets(value, secrets));
    forall s | s in secrets && s != "" ensures !Contains(Scrubbed(value, secrets), s) {
      SecretGone(value, secrets, s);
    }
  }

  /** A secret that cannot be left because part of it cannot: a removable secret of the
      list, or something token-shaped. */
  ghost predicate Covered(secret: string, secrets: seq<string>) {
    secret == "" || HasToken(secret) || exists t :: t in secrets && t != "" && Removable(t) && Contains(secret, t)
  }

  /** So even a secret that is not removable by itself is never left, if it holds one
      that is: the list as a whole may be better than its members. */
  lemma NothingCoveredLeft(value: string, secrets: seq<string>)
    requires forall s | s in secrets :: Covered(s, secrets)
    ensures forall s | s in secrets && s != "" :: !Contains(Scrubbed(value, secrets), s)
  {
    var out := Scrubbed(value, secrets);
    TokenPassLeavesNone(AfterSecrets(value, secrets));
    forall s | s in secrets && s != "" ensures !Contains(out, s) {
      if HasToken(s) {
        if Contains(out, s) {
          var t :| TokenShaped(t) && Contains(s, t);
          ContainsTransitive(out, s, t);
        }
      } else {
        var t :| t in secrets && t != "" && Removable(t) && Contains(s, t);
        SecretGone(value, secrets, t);
        if Contains(out, s) {
          ContainsTransitive(out, s, t);
        }
      }
    }
  }

  lemma StarFreeIsRemovable(secret: string)
    requires '*' !in secret
    ensures Removable(secret)
  {
    if i: nat :| OccursAt(secret, PLACEHOLDER, i) {
      PlaceholderHasStar(secret, i);
    }
  }

  /** In particular no secret without a star is ever left. */
  lemma StarFreeSecretsGo(value: string, secrets: seq<string>)
    requires forall s | s in secrets :: '*' !in s
    ensures !HasToken(Scrubbed(value, secrets))
    ensures forall s | s in secrets && s != "" :: !Contains(Scrubbed(value, secrets), s)
  {
    forall s | s in secrets ensures Removable(s) {
      StarFreeIsRemovable(s);
    }
    NothingLeft(value, secrets);
  }

  lemma {:induction false} SubstituteAbsent(p: Pattern, s: string)
    requires forall i | 0 <= i < |s| :: MatchLength(p, s[i..]) == 0
    ensures Substitute(p, s) == s
  {
    if s == "" {
    } else {
      assert s[0..] == s;
      forall i | 0 <= i < |s| - 1 ensures MatchLength(p, s[1..][i..]) == 0 {
        assert s[1..][i..] == s[i + 1..];
      }
      SubstituteAbsent(p, s[1..]);
    }
  }

  lemma AbsentSecretChangesNothing(value: string, secret: string)
    requires secret != "" && !Contains(value, secret)
    ensures Substitute(Secret(secret), value) == value
  {
    forall i | 0 <= i < |value| ensures MatchLength(Secret(secret), value[i..]) == 0 {
      assert !OccursAt(value, secret, i);
    }
    SubstituteAbsent(Secret(secret), value);
  }

  lemma {:induction false} AbsentSecretsChangeNothing(value: string, secrets: seq<string>)
    requires forall s | s in secrets && s != "" :: !Contains(value, s)
    ensures AfterSecrets(value, secrets) == value
    decreases |secrets|
  {
    if secrets == [] {
    } else {
      var last := secrets[|secrets| - 1];
      AbsentSecretsChangeNothing(value, secrets[..|secrets| - 1]);
      if last != "" {
        AbsentSecretChangesNothing(value, last);
      }
    }
  }

  /** Text that holds no token and no secret is left alone, by both kinds of pass. */
  lemma CleanTextUntouched(value: string, secrets: seq<string>)
    requires !HasToken(value) && forall s | s in secrets && s != "" :: !Contains(value, s)
    ensures AfterSecrets(value, secrets) == value
    ensures Scrubbed(value, secrets) == value
  {
    AbsentSecretsChangeNothing(value, secrets);
    forall i | 0 <= i < |value| ensures MatchLength(Token, value[i..]) == 0 {
      if TokenLength(value[i..]) > 0 {
        MatchIsTokenShaped(value[i..]);
        assert OccursAt(value, value[i..][..TokenLength(value[i..])], i);
      }
    }
    SubstituteAbsent(Token, value);
  }

  /** Scrubbing twice is scrubbing once. */
  lemma ScrubIdempotent(value: string, secrets: seq<string>)
    requires forall s | s in secrets :: Removable(s)
    ensures Scrubbed(Scrubbed(value, secrets), secrets) == Scrubbed(value, secrets)
  {
    NothingLeft(value, secrets);
    CleanTextUntouched(Scrubbed(value, secrets), secrets);
  }

  /** The secrets are taken in the order of the list: one list after another is their
      concatenation, and of an empty secret nothing comes. */
  lemma {:induction false} SecretsInOrder(value: string, secrets: seq<string>, more: seq<string>)
    ensures AfterSecrets(value, secrets + more) == AfterSecrets(AfterSecrets(value, secrets), more)
    ensures forall s | s != "" :: AfterSecrets(value, [s]) == Substitute(Secret(s), value)
    ensures AfterSecrets(value, [""]) == value
  {
    assert forall s: string :: [s][..0] == [];
    if more == [] {
      assert secrets + more == secrets;
    } else {
      var front, last := more[..|more| - 1], more[|more| - 1];
      SecretsInOrder(value, secrets, front);
      assert (secrets + more)[..|secrets + more| - 1] == secrets + front;
    }
  }

  /* ---------- The secrets redaction cannot remove ---------- */

  /** Some text still shows the secret after scrubbing with that secret configured. */
  ghost predicate Leaks(secret: string) {
    secret != "" && exists text :: Contains(Scrubbed(text, [secret]), secret)
  }

  lemma ShortTextUntouched(s: string, q: string)
    requires |q| < |s|
    ensures Substitute(Secret(s), q) == q
  {
    SubstituteAbsent(Secret(s), q);
  }

  lemma NoneInRest(c: char, rest: string, s: string, n: nat)
    requires forall i | 0 <= i < n :: !OccursAt([c] + rest, s, i)
    ensures forall i | 0 <= i < n - 1 :: !OccursAt(rest, s, i)
  {
    forall i | 0 <= i < n - 1 ensures !OccursAt(rest, s, i) {
      assert !OccursAt([c] + rest, s, i + 1);
      assert i + 1 <= |rest| + 1 ==> ([c] + rest)[i + 1..] == rest[i..];
    }
  }

  lemma {:induction false} ReplacedOnce(s: string, p: string, q: string)
    requires |q| < |s| && forall i | 0 <= i < |p| :: !OccursAt(p + (s + q), s, i)
    ensures Substitute(Secret(s), p + (s + q)) == p + (PLACEHOLDER + q)
    decreases |p|
  {
    if p == "" {
      assert "" + (s + q) == s + q;
      SubstituteMatch(Secret(s), s, q);
      ShortTextUntouched(s, q);
    } else {
      var rest := p[1..] + (s + q);
      Associate([p[0]], p[1..], s + q);
      Associate([p[0]], p[1..], PLACEHOLDER + q);
      assert [p[0]] + p[1..] == p;
      assert !OccursAt([p[0]] + rest, s, 0);
      assert ([p[0]] + rest)[0..] == [p[0]] + rest;
      SubstituteMiss(Secret(s), p[0], rest);
      NoneInRest(p[0], rest, s, |p|);
      ReplacedOnce(s, p[1..], q);
    }
  }

  lemma TokenHasNoStar(t: string)
    requires TokenShaped(t)
    ensures t != "" && '*' !in t
  {
  }

  lemma StarOverlap(p: string, q: string, t: string, i: nat)
    requires OccursAt(p + (PLACEHOLDER + q), t, i)
    requires i < |p| + 3 && i + |t| > |p| && t != ""
    ensures '*' in t
  {
    var o := p + (PLACEHOLDER + q);
    var m := if i > |p| then i else |p|;
    assert o[i..][m - i] == o[m] == '*';
    assert t[m - i] == o[m];
  }

  lemma OccursBefore(a: string, b: string, t: string, i: nat)
    requires OccursAt(a + b, t, i) && i + |t| <= |a|
    ensures OccursAt(a, t, i)
  {
    assert t == (a + b)[i..][..|t|] == a[i..][..|t|];
  }

  lemma StarFreeBesideStars(p: string, q: string, t: string)
    requires t != "" && '*' !in t && Contains(p + (PLACEHOLDER + q), t)
    ensures Contains(p, t) || Contains(q, t)
  {
    var i: nat :| OccursAt(p + (PLACEHOLDER + q), t, i);
    if i + |t| <= |p| {
      OccursBefore(p, PLACEHOLDER + q, t, i);
    } else if i >= |p| + 3 {
      OccursSkips(p, PLACEHOLDER + q, t, i);
      OccursSkips(PLACEHOLDER, q, t, i - |p|);
    } else {
      StarOverlap(p, q, t, i);
    }
  }

  lemma TokenBesideStars(p: string, q: string)
    requires HasToken(p + (PLACEHOLDER + q))
    ensures HasToken(p) || HasToken(q)
  {
    var t :| TokenShaped(t) && Contains(p + (PLACEHOLDER + q), t);
    TokenHasNoStar(t);
    StarFreeBesideStars(p, q, t);
  }

  lemma NoTokenUntouched(s: string)
    requires !HasToken(s)
    ensures Substitute(Token, s) == s
  {
    CleanTextUntouched(s, []);
  }

  /** One replacement, between a front and a rest of the secret itself, spells the
      secret again. */
  lemma PlaceholderCompletes(s: string, p: string, q: string)
    requires |q| < |s| && p <= s && EndsWith(s, q) && !HasToken(s)
    requires forall i | 0 <= i < |p| :: !OccursAt(p + (s + q), s, i)
    requires Contains(p + (PLACEHOLDER + q), s)
    ensures Leaks(s)
  {
    var text, o := p + (s + q), p + (PLACEHOLDER + q);
    ReplacedOnce(s, p, q);
    assert AfterSecrets(text, [s]) == o by {
      assert [s][..0] == [];
      assert AfterSecrets(text, []) == text;
    }
    assert OccursAt(s, p, 0) && OccursAt(s, q, |s| - |q|);
    if HasToken(o) {
      TokenBesideStars(p, q);
      var part := if HasToken(p) then p else q;
      var t :| TokenShaped(t) && Contains(part, t);
      ContainsTransitive(s, part, t);
    }
    NoTokenUntouched(o);
    assert Contains(Scrubbed(text, [s]), s);
  }

  lemma StarAtFrontLeaks(s: string)
    requires s != "" && s[0] == '*' && !HasToken(s)
    ensures Leaks(s)
  {
    var q := s[1..];
    var o := "" + (PLACEHOLDER + q);
    assert o[2..] == s;
    assert OccursAt(o, s, 2);
    PlaceholderCompletes(s, "", q);
  }

  /** An occurrence of s that starts inside the front p of p + s + q copies what
      follows p in s to where it starts. */
  lemma EarlierOccurrenceShifts(s: string, p: string, q: string, i: nat, j: nat)
    requires p <= s && i < |p| && OccursAt(p + (s + q), s, i) && |p| + j < |s|
    ensures s[0] == s[i] && s[i + j] == s[|p| + j]
  {
    var text := p + (s + q);
    assert s[0] == text[i..][0] == text[i];
    assert s[|p| + j] == text[i..][|p| + j] == text[i + |p| + j] == (s + q)[i + j];
  }

  lemma BackStarAlone(s: string, p: string)
    requires s == p + "*"
    ensures s[0] == '*' || forall i | 0 <= i < |p| :: !OccursAt(p + (s + ""), s, i)
  {
    if i :| 0 <= i < |p| && OccursAt(p + (s + ""), s, i) {
      EarlierOccurrenceShifts(s, p, "", i, 0);
    }
  }

  lemma StarAtBackLeaks(s: string)
    requires s != "" && s[0] != '*' && s[|s| - 1] == '*' && !HasToken(s)
    ensures Leaks(s)
  {
    var p := s[..|s| - 1];
    assert s == p + "*";
    BackStarAlone(s, p);
    var o := p + (PLACEHOLDER + "");
    assert s <= o[0..];
    assert OccursAt(o, s, 0);
    PlaceholderCompletes(s, p, "");
  }

  lemma ThreeStars(s: string, i: nat)
    requires i + 3 <= |s| && s[i] == s[i + 1] == s[i + 2] == '*'
    ensures OccursAt(s, PLACEHOLDER, i)
  {
    assert s[i..][..3] == PLACEHOLDER;
  }

  lemma StarsInsideLeak(s: string, k: nat)
    requires OccursAt(s, PLACEHOLDER, k) && !HasToken(s)
    requires forall i: nat | i < k :: !OccursAt(s, PLACEHOLDER, i)
    ensures Leaks(s)
  {
    var p, q := s[..k], s[k + 3..];
    assert s[k..][..3] == PLACEHOLDER;
    assert s == p + (PLACEHOLDER + q);
    forall i | 0 <= i < k ensures !OccursAt(p + (s + q), s, i) {
      if OccursAt(p + (s + q), s, i) {
        EarlierOccurrenceShifts(s, p, q, i, 0);
        EarlierOccurrenceShifts(s, p, q, i, 1);
        EarlierOccurrenceShifts(s, p, q, i, 2);
        ThreeStars(s, i);
      }
    }
    assert s[0..] == s;
    assert OccursAt(p + (PLACEHOLDER + q), s, 0);
    PlaceholderCompletes(s, p, q);
  }

  lemma {:induction false} LeftmostOccurrence(s: string, t: string, i: nat) returns (k: nat)
    requires OccursAt(s, t, i)
    ensures OccursAt(s, t, k) && forall j: nat | j < k :: !OccursAt(s, t, j)
    decreases i
  {
    if j: nat :| j < i && OccursAt(s, t, j) {
      k := LeftmostOccurrence(s, t, j);
    } else {
      k := i;
    }
  }

  /** Exactly the removable secrets are always removed. A secret that starts or ends
      with a star or has three stars in a row is not: on some text the placeholder
      itself completes it. */
  lemma RemovableExactly(secret: string)
    ensures Removable(secret) <==> !Leaks(secret)
  {
    if Removable(secret) {
      forall text | secret != "" ensures !Contains(Scrubbed(text, [secret]), secret) {
        NothingLeft(text, [secret]);
        assert secret in [secret];
      }
    } else if secret[0] == '*' {
      StarAtFrontLeaks(secret);
    } else if secret[|secret| - 1] == '*' {
      StarAtBackLeaks(secret);
    } else {
      var i: nat :| OccursAt(secret, PLACEHOLDER, i);
      var k := LeftmostOccurrence(secret, PLACEHOLDER, i);
      StarsInsideLeak(secret, k);
    }
  }

  /** Some text and some list of secrets with this one among them leave it visible. */
  ghost predicate EscapesSomeList(secret: string) {
    secret != "" && exists text, secrets :: secret in secrets && Contains(Scrubbed(text, secrets), secret)
  }

  /** Exactly the removable secrets are removed whatever list they stand in. */
  lemma RemovableFromEveryList(secret: string)
    ensures Removable(secret) <==> !EscapesSomeList(secret)
  {
    RemovableExactly(secret);
    if Removable(secret) {
      forall text, secrets: seq<string> | secret != "" && secret in secrets
        ensures !Contains(Scrubbed(text, secrets), secret)
      {
        SecretGone(text, secrets, secret);
      }
    } else {
      var text :| Contains(Scrubbed(text, [secret]), secret);
      assert secret in [secret];
    }
  }

  lemma EmptyHasNoToken()
    ensures !HasToken("")
  {
    if t :| TokenShaped(t) && Contains("", t) {
      TokenHasNoStar(t);
    }
  }

  /** The smallest such secret: one star. */
  lemma OneStarLeaks()
    ensures Contains(Scrubbed("*", ["*"]), "*")
  {
    assert ["*"][..0] == [] && AfterSecrets("*", []) == "*";
    assert "*"[1..] == "";
    var out := "" + (PLACEHOLDER + "");
    assert AfterSecrets("*", ["*"]) == out;
    EmptyHasNoToken();
    if HasToken(out) {
      TokenBesideStars("", "");
    }
    NoTokenUntouched(out);
    assert OccursAt(out, "*", 0);
  }

  /* ---------- The filter ---------- */

  /** A value logging may carry: text, or something the filter does not look into. */
  datatype Value = Text(text: string) | Opaque(id: int)

  function Redacted(v: Value, secrets: seq<string>): Value {
    match v
    case Text(text) => Text(Scrubbed(text, secrets))
    case Opaque(_) => v
  }

  /** Nothing in v that the secrets or the token pattern forbid. */
  ghost predicate Clean(v: Value, secrets: seq<string>) {
    v.Text? ==> !HasToken(v.text) && forall s | s in secrets && s != "" :: !Contains(v.text, s)
  }

  /** s in value */
  predicate IsIn(s: string, value: string) {
    exists i | 0 <= i <= |value| :: s <= value[i..]
  }

  method Scrub(value: string, secrets: seq<string>) returns (out: string)
    ensures out == Scrubbed(value, secrets)
  {
    out := value;
    for k := 0 to |secrets|
      invariant out == AfterSecrets(value, secrets[..k])
    {
      var s := secrets[k];
      assert secrets[..k + 1][..k] == secrets[..k];
      if s != "" {
        if IsIn(s, out) {
          out := Substitute(Secret(s), out);
        } else {
          SubstituteAbsent(Secret(s), out);
        }
      }
    }
    assert secrets[..|secrets|] == secrets;
    out := Substitute(Token, out);
  }

  method RedactString(value: string, currentSecrets: seq<string>) returns (out: string)
    ensures out == Scrubbed(value, currentSecrets)
    ensures (forall s | s in currentSecrets :: Removable(s)) ==> Clean(Text(out), currentSecrets)
  {
    if value == "" {
      out := value;
      CleanTextUntouchedWhenEmpty(currentSecrets);
    } else {
      out := Scrub(value, currentSecrets);
    }
    if forall s | s in currentSecrets :: Removable(s) {
      NothingLeft(value, currentSecrets);
    }
  }

  lemma CleanTextUntouchedWhenEmpty(secrets: seq<string>)
    ensures Scrubbed("", secrets) == ""
  {
    EmptyHasNoToken();
    CleanTextUntouched("", secrets);
  }

  /** The arguments of a record: a tuple, or the one mapping that named placeholders
      draw on. */
  datatype Args = Positional(values: seq<Value>) | Mapping(entries: seq<(Value, Value)>)

  /** What iterating the arguments yields: of a mapping, the keys. */
  function Iterated(args: Args): (values: seq<Value>)
    ensures args.Positional? ==> values == args.values
    ensures args.Mapping? ==>
      |values| == |args.entries| && forall i | 0 <= i < |values| :: values[i] == args.entries[i].0
  {
    match args
    case Positional(values) => values
    case Mapping(entries) => seq(|entries|, i requires 0 <= i < |entries| => entries[i].0)
  }

  class LogRecord {
    var msg: Value
    var args: Args

    constructor (msg: Value, args: Args)
      ensures this.msg == msg && this.args == args
    {
      this.msg, this.args := msg, args;
    }
  }

  function RedactedAll(values: seq<Value>, secrets: seq<string>): (out: seq<Value>)
    ensures |out| == |values| && forall i | 0 <= i < |values| :: out[i] == Redacted(values[i], secrets)
  {
    seq(|values|, i requires 0 <= i < |values| => Redacted(values[i], secrets))
  }

  lemma RedactedIsClean(v: Value, secrets: seq<string>)
    requires forall s | s in secrets :: Removable(s)
    ensures Clean(Redacted(v, secrets), secrets)
  {
    if v.Text? {
      NothingLeft(v.text, secrets);
    }
  }

  /** The filter looks into text alone, and leaves text that is clean. */
  lemma CleanValueUntouched(v: Value, secrets: seq<string>)
    requires v.Text? ==> Clean(v, secrets)
    ensures Redacted(v, secrets) == v
  {
    if v.Text? {
      CleanTextUntouched(v.text, secrets);
    }
  }

  /** Configured secrets that are not empty. */
  function NonEmpty(secrets: seq<string>): (r: seq<string>)
    ensures forall s :: s in r <==> s in secrets && s != ""
  {
    if secrets == [] then []
    else (if secrets[0] != "" then [secrets[0]] else []) + NonEmpty(secrets[1..])
  }

  class RedactionFilter {
    const extraSecrets: seq<string>

    constructor (secrets: seq<string>)
      ensures extraSecrets == NonEmpty(secrets)
    {
      extraSecrets := NonEmpty(secrets);
    }

    /** Rewrites the record in place and always lets it pass. Arguments come out as a
        tuple: of a mapping that is not empty only the keys are left. */
    method Filter(record: LogRecord, configured: seq<string>) returns (keep: bool)
      modifies record
      ensures keep
      ensures var secrets := extraSecrets + NonEmpty(configured);
        && record.msg == Redacted(old(record.msg), secrets)
        && record.args == (if Iterated(old(record.args)) == [] then old(record.args)
                           else Positional(RedactedAll(Iterated(old(record.args)), secrets)))
        && (record.args.Mapping? <==> old(record.args).Mapping? && old(record.args).entries == [])
        && ((forall s | s in secrets :: Removable(s)) ==>
              Clean(record.msg, secrets) && forall v | v in Iterated(record.args) :: Clean(v, secrets))
    {
      var secrets := extraSecrets + NonEmpty(configured);
      if record.msg.Text? {
        var text := Scrub(record.msg.text, secrets);
        record.msg := Text(text);
      }
      if Iterated(record.args) != [] {
        record.args := Positional(RedactedAll(Iterated(record.args), secrets));
      }
      if forall s | s in secrets :: Removable(s) {
        forall v ensures Clean(Redacted(v, secrets), secrets) {
          RedactedIsClean(v, secrets);
        }
      }
      return true;
    }
  }
}
