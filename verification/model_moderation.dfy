/**
 * The model-backed moderation service: toxicity from the Detoxify classifier,
 * spam from `SpamCheck`, and the verdict of `moderate_content` with the
 * additional identity-attack rule.
 *
 * The classifier is a parameter: for a text it either returns the six
 * category scores or raises (`None`). Nothing is assumed about its scores.
 */
module ModelModeration {
  import opened Common
  import opened Strings
  import opened ModerationPolicy
  import opened SpamCheck
  import RuleModeration

  /** `Detoxify('original').predict`: six scores, or `None` when it raises. */
  type Classifier = string -> Option<Categories>

  /** `check_toxicity`: a blank text is never classified and scores 0.0
      everywhere; a classifier failure is swallowed and also scores 0.0
      everywhere; otherwise the classifier's scores are returned as they are. */
  function CheckToxicity(classify: Classifier, text: string): (c: Categories)
    ensures IsBlank(text) ==> c == Clean
    ensures !IsBlank(text) && classify(text).None? ==> c == Clean
    ensures !IsBlank(text) && classify(text).Some? ==> c == classify(text).value
  {
    if IsBlank(text) then Clean
    else
      match classify(text)
      case Some(results) => results
      case None => Clean
  }

  /** A classifier failure is indistinguishable from harmless text: no
      toxicity reason is raised, and with the spam check off the content is
      reported safe with every category at 0.0. */
  lemma ClassifierFailureLooksClean(classify: Classifier, text: string)
    requires classify(text).None?
    ensures ToxicityReasons(CheckToxicity(classify, text), true) == []
    ensures Verdict(Some(CheckToxicity(classify, text)), None, true)
      == Moderation(true, 0.0, 0.0, Some(Clean), [], None)
  {
    ToxicityReasonsSpec(Clean, true);
  }

  /** An identity-attack score above 0.5 alone makes the content unsafe here,
      where the rule-based service would let it through. */
  lemma IdentityAttackBlocks(classify: Classifier, text: string, spam: Option<(real, seq<string>)>)
    requires !IsBlank(text) && classify(text).Some? && classify(text).value.identityAttack > 0.5
    ensures IdentityAttack in Verdict(Some(CheckToxicity(classify, text)), spam, true).flaggedReasons
    ensures !Verdict(Some(CheckToxicity(classify, text)), spam, true).isSafe
    ensures IdentityAttack !in Verdict(Some(CheckToxicity(classify, text)), spam, false).flaggedReasons
  {
    var c := CheckToxicity(classify, text);
    VerdictUnsafeIff(Some(c), spam, true);
    ToxicityReasonsSpec(c, true);
    ToxicityReasonsSpec(c, false);
    MembershipOfVerdict(c, spam, true, IdentityAttack);
    MembershipOfVerdict(c, spam, false, IdentityAttack);
  }

  lemma MembershipOfVerdict(c: Categories, spam: Option<(real, seq<string>)>, identityRule: bool, r: Reason)
    requires r != Spam && r != PossibleSpam
    ensures r in Verdict(Some(c), spam, identityRule).flaggedReasons <==> r in ToxicityReasons(c, identityRule)
  {
    var s := if spam.Some? then SpamReasons(spam.value.0) else [];
    assert Verdict(Some(c), spam, identityRule).flaggedReasons == ToxicityReasons(c, identityRule) + s;
  }

  /** A classifier that returns exactly the rule-based scores makes this
      service give the rule-based service's verdict: the identity-attack rule
      never fires on them. */
  lemma AgreesWithRuleService(classify: Classifier, text: string, spam: Option<(real, seq<string>)>)
    requires classify(text) == Some(RuleModeration.CheckToxicity(text))
    ensures Verdict(Some(CheckToxicity(classify, text)), spam, true)
      == Verdict(Some(RuleModeration.CheckToxicity(text)), spam, false)
  {
    IdentityRuleOnlyAddsIdentityAttack(RuleModeration.CheckToxicity(text));
  }

  /** `moderate_content` of the model-backed service: the rule-based policy
      plus the identity-attack rule. `urls` is the number of URL matches in
      the text. */
  method ModerateContent(classify: Classifier, text: string, checkToxicity: bool, checkSpam: bool, urls: nat)
    returns (results: Moderation)
    ensures results == Verdict(
      if checkToxicity then Some(CheckToxicity(classify, text)) else None,
      if checkSpam then Some(SpamResult(text, urls)) else None,
      true)
  {
    results := Moderation(true, 0.0, 0.0, None, [], None);
    ghost var tox: Option<Categories> := None;
    if checkToxicity {
      var toxicityResults := CheckToxicity(classify, text);
      results := FlagToxicity(results, toxicityResults, true);
      tox := Some(toxicityResults);
      assert results.flaggedReasons == ToxicityReasons(toxicityResults, true);
    }
    ghost var toxicityReasons := if tox.Some? then ToxicityReasons(tox.value, true) else [];
    assert results == Verdict(tox, None, true) by {
      VerdictReasons(tox, None, true);
    }
    ghost var spam: Option<(real, seq<string>)> := None;
    if checkSpam {
      var spamScore, spamPatterns := CheckSpam(text, urls);
      results := FlagSpam(results, spamScore, spamPatterns);
      spam := Some((spamScore, spamPatterns));
    }
    assert results.flaggedReasons == toxicityReasons + (if spam.Some? then SpamReasons(spam.value.0) else []);
    VerdictReasons(tox, spam, true);
    assert results == Verdict(tox, spam, true);
    assert tox == if checkToxicity then Some(CheckToxicity(classify, text)) else None;
    assert spam == if checkSpam then Some(SpamResult(text, urls)) else None;
  }
}
