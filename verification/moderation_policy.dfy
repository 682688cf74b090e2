/**
 * The verdict both moderation services build from their checks: the six
 * toxicity categories, the flagged reasons with the thresholds that raise
 * them, and the result record of `moderate_content`.
 *
 * The rule-based service has no identity-attack rule and the model-backed
 * one has; `identityRule` selects between the two.
 */
module ModerationPolicy {
  import opened Common

  /** The six category scores `check_toxicity` reports. */
  datatype Categories = Categories(
    toxicity: real,
    severeToxicity: real,
    obscene: real,
    threat: real,
    insult: real,
    identityAttack: real)

  /** Every category at 0.0. */
  const Clean: Categories := Categories(0.0, 0.0, 0.0, 0.0, 0.0, 0.0)

  const ToxicityThreshold: real := 0.7
  const ToxicityWarningThreshold: real := 0.5
  /** The bar the severe-toxicity, threat and identity-attack scores must exceed. */
  const CategoryThreshold: real := 0.5
  const SpamThreshold: real := 0.6
  const PossibleSpamThreshold: real := 0.4

  datatype Reason = HighToxicity | ModerateToxicity | SevereToxicity | Threat | IdentityAttack | Spam | PossibleSpam

  /** The string the service puts in `flagged_reasons`. */
  function Code(r: Reason): string {
    match r
    case HighToxicity => "high_toxicity"
    case ModerateToxicity => "moderate_toxicity"
    case SevereToxicity => "severe_toxicity"
    case Threat => "threat"
    case IdentityAttack => "identity_attack"
    case Spam => "spam"
    case PossibleSpam => "possible_spam"
  }

  /** A reason that turns `is_safe` off; the two warnings do not. */
  predicate Blocking(r: Reason) {
    r != ModerateToxicity && r != PossibleSpam
  }

  /** The order in which `moderate_content` evaluates the rules. */
  function Rank(r: Reason): nat {
    match r
    case HighToxicity => 0
    case ModerateToxicity => 1
    case SevereToxicity => 2
    case Threat => 3
    case IdentityAttack => 4
    case Spam => 5
    case PossibleSpam => 6
  }

  /** No reason in the list blocks the content. */
  predicate NoneBlocking(rs: seq<Reason>) {
    forall i :: 0 <= i < |rs| ==> !Blocking(rs[i])
  }

  /** Appending a reason keeps the content safe exactly when that reason does not block. */
  lemma NoneBlockingSnoc(rs: seq<Reason>, r: Reason)
    ensures NoneBlocking(rs + [r]) <==> NoneBlocking(rs) && !Blocking(r)
  {
    assert (rs + [r])[|rs|] == r;
    assert forall i :: 0 <= i < |rs| ==> (rs + [r])[i] == rs[i];
  }

  predicate InEvaluationOrder(rs: seq<Reason>) {
    forall i, j :: 0 <= i < j < |rs| ==> Rank(rs[i]) < Rank(rs[j])
  }

  /** The reasons the toxicity branch appends, in order. */
  function ToxicityReasons(c: Categories, identityRule: bool): seq<Reason> {
    (if c.toxicity >= ToxicityThreshold then [HighToxicity]
     else if c.toxicity >= ToxicityWarningThreshold then [ModerateToxicity]
     else [])
    + (if c.severeToxicity > CategoryThreshold then [SevereToxicity] else [])
    + (if c.threat > CategoryThreshold then [Threat] else [])
    + (if identityRule && c.identityAttack > CategoryThreshold then [IdentityAttack] else [])
  }

  /** The reason the spam branch appends, if any. */
  function SpamReasons(spamScore: real): seq<Reason> {
    if spamScore > SpamThreshold then [Spam]
    else if spamScore > PossibleSpamThreshold then [PossibleSpam]
    else []
  }

  /** The result of `moderate_content`. `categories` is `None` for the empty
      dictionary left by a disabled toxicity check, and `spamPatterns` is `None`
      when the key is absent. */
  datatype Moderation = Moderation(
    isSafe: bool,
    toxicityScore: real,
    spamScore: real,
    categories: Option<Categories>,
    flaggedReasons: seq<Reason>,
    spamPatterns: Option<seq<string>>)

  /** The verdict on the outputs of the enabled checks (`None`: check disabled):
      the reasons of the toxicity branch and then of the spam branch, and
      "safe" exactly when none of them blocks. */
  function Verdict(tox: Option<Categories>, spam: Option<(real, seq<string>)>, identityRule: bool): Moderation {
    var reasons := (if tox.Some? then ToxicityReasons(tox.value, identityRule) else [])
                 + (if spam.Some? then SpamReasons(spam.value.0) else []);
    Moderation(
      NoneBlocking(reasons),
      if tox.Some? then tox.value.toxicity else 0.0,
      if spam.Some? then spam.value.0 else 0.0,
      if tox.Some? then Some(tox.value) else None,
      reasons,
      if spam.Some? && spam.value.0 > PossibleSpamThreshold then Some(spam.value.1) else None)
  }

  /** Each toxicity reason appears exactly when its threshold is crossed; the
      warning only below the blocking bar; identity attacks only under the
      model-backed rule. */
  lemma ToxicityReasonsSpec(c: Categories, identityRule: bool)
    ensures HighToxicity in ToxicityReasons(c, identityRule) <==> c.toxicity >= 0.7
    ensures ModerateToxicity in ToxicityReasons(c, identityRule) <==> 0.5 <= c.toxicity < 0.7
    ensures SevereToxicity in ToxicityReasons(c, identityRule) <==> c.severeToxicity > 0.5
    ensures Threat in ToxicityReasons(c, identityRule) <==> c.threat > 0.5
    ensures IdentityAttack in ToxicityReasons(c, identityRule) <==> identityRule && c.identityAttack > 0.5
  {
  }

  /** The toxicity reasons come in evaluation order, all before the spam reasons. */
  lemma ToxicityReasonsInOrder(c: Categories, identityRule: bool)
    ensures forall r :: r in ToxicityReasons(c, identityRule) ==> Rank(r) <= 4
    ensures InEvaluationOrder(ToxicityReasons(c, identityRule))
  {
    var high := if c.toxicity >= ToxicityThreshold then [HighToxicity]
                else if c.toxicity >= ToxicityWarningThreshold then [ModerateToxicity] else [];
    var severe := if c.severeToxicity > CategoryThreshold then [SevereToxicity] else [];
    var threat := if c.threat > CategoryThreshold then [Threat] else [];
    var identity := if identityRule && c.identityAttack > CategoryThreshold then [IdentityAttack] else [];
    assert ToxicityReasons(c, identityRule) == high + severe + threat + identity;
    OrderedConcat(high, severe, 2);
    OrderedConcat(high + severe, threat, 3);
    OrderedConcat(high + severe + threat, identity, 4);
  }

  /** Two lists in evaluation order, every rank of the first below `k` and of
      the second from `k` on. */
  lemma OrderedConcat(a: seq<Reason>, b: seq<Reason>, k: nat)
    requires InEvaluationOrder(a) && InEvaluationOrder(b)
    requires forall x :: x in a ==> Rank(x) < k
    requires forall y :: y in b ==> k <= Rank(y)
    ensures InEvaluationOrder(a + b)
    ensures forall r :: r in a + b <==> r in a || r in b
  {
    forall i, j | 0 <= i < j < |a + b| ensures Rank((a + b)[i]) < Rank((a + b)[j]) {
      if i < |a| && j >= |a| {
        assert (a + b)[i] == a[i] && a[i] in a;
        assert (a + b)[j] == b[j - |a|] && b[j - |a|] in b;
      } else if i >= |a| {
        assert (a + b)[i] == b[i - |a|] && (a + b)[j] == b[j - |a|];
      }
    }
  }

  /** A score above 0.6 is spam, one in (0.4, 0.6] a possible spam, anything else nothing. */
  lemma SpamReasonsSpec(spamScore: real)
    ensures SpamReasons(spamScore) == [Spam] <==> spamScore > 0.6
    ensures SpamReasons(spamScore) == [PossibleSpam] <==> 0.4 < spamScore <= 0.6
    ensures SpamReasons(spamScore) == [] <==> spamScore <= 0.4
  {
  }

  /** The result keeps `is_safe` in step with its reasons. */
  predicate SafeMatchesReasons(results: Moderation) {
    results.isSafe == NoneBlocking(results.flaggedReasons)
  }

  /** The toxicity branch of `moderate_content` on the scores `c`: record the
      overall score and the categories, then append each reason its threshold
      calls for, clearing `is_safe` on every blocking one. */
  method FlagToxicity(results: Moderation, c: Categories, identityRule: bool) returns (flagged: Moderation)
    requires SafeMatchesReasons(results)
    ensures SafeMatchesReasons(flagged)
    ensures flagged == results.(
      isSafe := flagged.isSafe,
      toxicityScore := c.toxicity,
      categories := Some(c),
      flaggedReasons := results.flaggedReasons + ToxicityReasons(c, identityRule))
  {
    ghost var level, severe, threat, identity := ToxicityPieces(c, identityRule);
    var isSafe, reasons := results.isSafe, results.flaggedReasons;
    if c.toxicity >= ToxicityThreshold {
      NoneBlockingSnoc(reasons, HighToxicity);
      isSafe, reasons := false, reasons + [HighToxicity];
    } else if c.toxicity >= ToxicityWarningThreshold {
      NoneBlockingSnoc(reasons, ModerateToxicity);
      reasons := reasons + [ModerateToxicity];
    }
    assert reasons == results.flaggedReasons + level;
    if c.severeToxicity > CategoryThreshold {
      NoneBlockingSnoc(reasons, SevereToxicity);
      isSafe, reasons := false, reasons + [SevereToxicity];
    }
    assert reasons == results.flaggedReasons + level + severe;
    if c.threat > CategoryThreshold {
      NoneBlockingSnoc(reasons, Threat);
      isSafe, reasons := false, reasons + [Threat];
    }
    assert reasons == results.flaggedReasons + level + severe + threat;
    if identityRule && c.identityAttack > CategoryThreshold {
      NoneBlockingSnoc(reasons, IdentityAttack);
      isSafe, reasons := false, reasons + [IdentityAttack];
    }
    assert reasons == results.flaggedReasons + level + severe + threat + identity;
    AppendPieces(results.flaggedReasons, level, severe, threat, identity);
    flagged := results.(isSafe := isSafe, toxicityScore := c.toxicity, categories := Some(c), flaggedReasons := reasons);
  }

  /** The four steps of the toxicity branch, each contributing at most one reason. */
  lemma ToxicityPieces(c: Categories, identityRule: bool)
    returns (level: seq<Reason>, severe: seq<Reason>, threat: seq<Reason>, identity: seq<Reason>)
    ensures level == (if c.toxicity >= ToxicityThreshold then [HighToxicity]
                      else if c.toxicity >= ToxicityWarningThreshold then [ModerateToxicity] else [])
    ensures severe == (if c.severeToxicity > CategoryThreshold then [SevereToxicity] else [])
    ensures threat == (if c.threat > CategoryThreshold then [Threat] else [])
    ensures identity == (if identityRule && c.identityAttack > CategoryThreshold then [IdentityAttack] else [])
    ensures ToxicityReasons(c, identityRule) == level + severe + threat + identity
  {
    level := if c.toxicity >= ToxicityThreshold then [HighToxicity]
             else if c.toxicity >= ToxicityWarningThreshold then [ModerateToxicity] else [];
    severe := if c.severeToxicity > CategoryThreshold then [SevereToxicity] else [];
    threat := if c.threat > CategoryThreshold then [Threat] else [];
    identity := if identityRule && c.identityAttack > CategoryThreshold then [IdentityAttack] else [];
  }

  lemma AppendPieces(r: seq<Reason>, a: seq<Reason>, b: seq<Reason>, c: seq<Reason>, d: seq<Reason>)
    ensures r + a + b + c + d == r + (a + b + c + d)
  {
  }

  /** The spam branch of `moderate_content` on the result of `check_spam`:
      record the score; above 0.6 append `spam` and clear `is_safe`, above 0.4
      append `possible_spam`, and in both cases attach the patterns. */
  method FlagSpam(results: Moderation, spamScore: real, spamPatterns: seq<string>) returns (flagged: Moderation)
    requires SafeMatchesReasons(results)
    ensures SafeMatchesReasons(flagged)
    ensures flagged == results.(
      isSafe := flagged.isSafe,
      spamScore := spamScore,
      flaggedReasons := results.flaggedReasons + SpamReasons(spamScore),
      spamPatterns := if spamScore > PossibleSpamThreshold then Some(spamPatterns) else results.spamPatterns)
  {
    var isSafe, reasons, patterns := results.isSafe, results.flaggedReasons, results.spamPatterns;
    if spamScore > SpamThreshold {
      NoneBlockingSnoc(reasons, Spam);
      isSafe, reasons, patterns := false, reasons + [Spam], Some(spamPatterns);
    } else if spamScore > PossibleSpamThreshold {
      NoneBlockingSnoc(reasons, PossibleSpam);
      reasons, patterns := reasons + [PossibleSpam], Some(spamPatterns);
    }
    flagged := results.(isSafe := isSafe, spamScore := spamScore, flaggedReasons := reasons, spamPatterns := patterns);
  }

  /** The verdict's reasons: the toxicity branch's, then the spam branch's. */
  lemma VerdictReasons(tox: Option<Categories>, spam: Option<(real, seq<string>)>, identityRule: bool)
    ensures Verdict(tox, spam, identityRule).flaggedReasons ==
      (if tox.Some? then ToxicityReasons(tox.value, identityRule) else [])
      + (if spam.Some? then SpamReasons(spam.value.0) else [])
  {
  }

  /** The content is unsafe exactly when an enabled check crossed a blocking
      threshold. */
  lemma VerdictUnsafeIff(tox: Option<Categories>, spam: Option<(real, seq<string>)>, identityRule: bool)
    ensures !Verdict(tox, spam, identityRule).isSafe <==>
      (tox.Some? && (tox.value.toxicity >= 0.7 || tox.value.severeToxicity > 0.5 || tox.value.threat > 0.5
                     || (identityRule && tox.value.identityAttack > 0.5)))
      || (spam.Some? && spam.value.0 > 0.6)
  {
    var t := if tox.Some? then ToxicityReasons(tox.value, identityRule) else [];
    var s := if spam.Some? then SpamReasons(spam.value.0) else [];
    assert Verdict(tox, spam, identityRule).flaggedReasons == t + s;
    NoBlockingConcat(t, s);
    if tox.Some? {
      ToxicityBlocks(tox.value, identityRule);
    }
    if spam.Some? {
      SpamReasonsSpec(spam.value.0);
    }
  }

  /** The toxicity reasons block exactly when a blocking threshold is crossed. */
  lemma ToxicityBlocks(c: Categories, identityRule: bool)
    ensures !NoneBlocking(ToxicityReasons(c, identityRule)) <==>
      c.toxicity >= 0.7 || c.severeToxicity > 0.5 || c.threat > 0.5 || (identityRule && c.identityAttack > 0.5)
  {
    var t := ToxicityReasons(c, identityRule);
    ToxicityReasonsSpec(c, identityRule);
    ToxicityReasonsInOrder(c, identityRule);
    if !NoneBlocking(t) {
      var i :| 0 <= i < |t| && Blocking(t[i]);
      assert t[i] in t;
    } else {
      forall r | r in t ensures !Blocking(r) {
        var i :| 0 <= i < |t| && t[i] == r;
      }
    }
  }

  lemma NoBlockingConcat(t: seq<Reason>, s: seq<Reason>)
    ensures NoneBlocking(t + s) <==> NoneBlocking(t) && NoneBlocking(s)
  {
    if NoneBlocking(t + s) {
      forall i | 0 <= i < |t| ensures !Blocking(t[i]) {
        assert (t + s)[i] == t[i];
      }
      forall i | 0 <= i < |s| ensures !Blocking(s[i]) {
        assert (t + s)[|t| + i] == s[i];
      }
    }
  }

  /** The flagged reasons are distinct, toxicity reasons before spam reasons;
      a disabled check leaves its defaults (score 0.0, no categories, no patterns). */
  lemma VerdictShape(tox: Option<Categories>, spam: Option<(real, seq<string>)>, identityRule: bool)
    ensures InEvaluationOrder(Verdict(tox, spam, identityRule).flaggedReasons)
    ensures tox.None? ==>
      (Verdict(tox, spam, identityRule).toxicityScore == 0.0
       && Verdict(tox, spam, identityRule).categories.None?
       && forall r :: r in Verdict(tox, spam, identityRule).flaggedReasons ==> r == Spam || r == PossibleSpam)
    ensures spam.None? ==>
      (Verdict(tox, spam, identityRule).spamScore == 0.0
       && Verdict(tox, spam, identityRule).spamPatterns.None?
       && Spam !in Verdict(tox, spam, identityRule).flaggedReasons
       && PossibleSpam !in Verdict(tox, spam, identityRule).flaggedReasons)
    ensures Verdict(tox, spam, identityRule).spamPatterns.Some? <==> spam.Some? && spam.value.0 > 0.4
  {
    var t := if tox.Some? then ToxicityReasons(tox.value, identityRule) else [];
    var s := if spam.Some? then SpamReasons(spam.value.0) else [];
    if tox.Some? {
      ToxicityReasonsInOrder(tox.value, identityRule);
    }
    assert Verdict(tox, spam, identityRule).flaggedReasons == t + s;
    OrderedConcat(t, s, 5);
  }

  /** With both checks off the content is safe, both scores are 0.0, there are
      no categories and no reasons. */
  lemma VerdictAllDisabled(identityRule: bool)
    ensures Verdict(None, None, identityRule) == Moderation(true, 0.0, 0.0, None, [], None)
  {
  }

  /** The two services' rules agree whenever the identity-attack score is at most 0.5. */
  lemma IdentityRuleOnlyAddsIdentityAttack(c: Categories)
    requires c.identityAttack <= 0.5
    ensures ToxicityReasons(c, true) == ToxicityReasons(c, false)
  {
  }
}
