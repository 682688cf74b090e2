/**
 * The rule-based moderation service: toxicity from word lists matched as
 * substrings of the lower-cased text, spam from `SpamCheck`, and the verdict
 * of `moderate_content` without an identity-attack rule.
 */
module RuleModeration {
  import opened Common
  import opened Strings
  import opened ModerationPolicy
  import opened SpamCheck

  const ToxicWords: seq<string> := [
    "stupid", "idiot", "dumb", "hate", "kill", "die", "ugly", "loser", "moron", "retard",
    "shut up", "fuck", "shit", "bitch", "ass", "damn", "hell", "crap", "suck", "worst"]

  const SevereToxicWords: seq<string> := [
    "kill yourself", "die", "kys", "suicide", "murder", "rape", "terrorist", "bomb", "attack"]

  const InsultWords: seq<string> := ["stupid", "idiot", "dumb", "moron", "loser"]
  const ThreatWords: seq<string> := ["kill", "die", "murder", "attack"]
  const ObsceneWords: seq<string> := ["fuck", "shit", "bitch", "ass"]

  /** `sum(1 for word in words if word in text)`. */
  function CountPresent(words: seq<string>, lowerText: string): (n: nat)
    ensures n <= |words|
  {
    if |words| == 0 then 0
    else CountPresent(words[..|words| - 1], lowerText)
         + (if Contains(lowerText, words[|words| - 1]) then 1 else 0)
  }

  /** `any(word in text for word in words)`. */
  predicate AnyPresent(words: seq<string>, lowerText: string) {
    exists i :: 0 <= i < |words| && Contains(lowerText, words[i])
  }

  /** A word list is counted at least once exactly when one of its words occurs. */
  lemma {:induction false} CountPresentPositive(words: seq<string>, lowerText: string)
    ensures CountPresent(words, lowerText) >= 1 <==> AnyPresent(words, lowerText)
  {
    if |words| > 0 {
      var front := words[..|words| - 1];
      CountPresentPositive(front, lowerText);
      if AnyPresent(front, lowerText) {
        var i :| 0 <= i < |front| && Contains(lowerText, front[i]);
        assert words[i] == front[i];
      }
      if AnyPresent(words, lowerText) && !Contains(lowerText, words[|words| - 1]) {
        var i :| 0 <= i < |words| && Contains(lowerText, words[i]);
        assert i < |front| && front[i] == words[i];
      }
    }
  }

  predicate InUnitRange(x: real) {
    0.0 <= x <= 1.0
  }

  /** `check_toxicity`: a blank text scores 0.0 everywhere; otherwise the
      toxic-word and severe-word counts give 0.3 and 0.5 per word (capped at
      1.0), one insult, threat or obscene word gives 0.7, 0.8 or 0.6, the
      overall toxicity is the largest of these five, and identity attacks are
      never detected. */
  function CheckToxicity(text: string): (c: Categories)
    ensures IsBlank(text) ==> c == Clean
    ensures InUnitRange(c.toxicity) && InUnitRange(c.severeToxicity) && InUnitRange(c.obscene)
      && InUnitRange(c.threat) && InUnitRange(c.insult)
    ensures c.toxicity >= c.severeToxicity && c.toxicity >= c.obscene
      && c.toxicity >= c.threat && c.toxicity >= c.insult
    ensures c.identityAttack == 0.0
  {
    if IsBlank(text) then Clean
    else
      var textLower := Lower(text);
      var toxicityScore := CapAtOne(CountPresent(ToxicWords, textLower) as real * 0.3);
      var severeToxicityScore := CapAtOne(CountPresent(SevereToxicWords, textLower) as real * 0.5);
      var insultScore := if AnyPresent(InsultWords, textLower) then 0.7 else 0.0;
      var threatScore := if AnyPresent(ThreatWords, textLower) then 0.8 else 0.0;
      var obsceneScore := if AnyPresent(ObsceneWords, textLower) then 0.6 else 0.0;
      var overall := Max5(toxicityScore, severeToxicityScore, insultScore, threatScore, obsceneScore);
      Categories(overall, severeToxicityScore, obsceneScore, threatScore, insultScore, 0.0)
  }

  /** Python's built-in `max` on five numbers. */
  function Max5(a: real, b: real, c: real, d: real, e: real): (m: real)
    ensures m >= a && m >= b && m >= c && m >= d && m >= e
    ensures m == a || m == b || m == c || m == d || m == e
  {
    var ab := if a >= b then a else b;
    var abc := if ab >= c then ab else c;
    var abcd := if abc >= d then abc else d;
    if abcd >= e then abcd else e
  }

  /** What the word lists mean for the verdict: an insult or threat word, or
      three toxic words, make the text highly toxic; a threat word is also a
      threat; two severe words are severe toxicity; one severe word or one
      obscene word is at least a warning. */
  lemma RuleVerdictTriggers(text: string)
    requires !IsBlank(text)
    ensures AnyPresent(InsultWords, Lower(text)) ==> HighToxicity in ToxicityReasons(CheckToxicity(text), false)
    ensures AnyPresent(ThreatWords, Lower(text)) ==>
      HighToxicity in ToxicityReasons(CheckToxicity(text), false) && Threat in ToxicityReasons(CheckToxicity(text), false)
    ensures CountPresent(ToxicWords, Lower(text)) >= 3 ==> HighToxicity in ToxicityReasons(CheckToxicity(text), false)
    ensures CountPresent(SevereToxicWords, Lower(text)) >= 2 ==>
      SevereToxicity in ToxicityReasons(CheckToxicity(text), false)
    ensures CountPresent(SevereToxicWords, Lower(text)) >= 1 || AnyPresent(ObsceneWords, Lower(text)) ==>
      HighToxicity in ToxicityReasons(CheckToxicity(text), false) || ModerateToxicity in ToxicityReasons(CheckToxicity(text), false)
  {
    ToxicityReasonsSpec(CheckToxicity(text), false);
  }

  /** The rule-based check flags nothing exactly when at most one toxic word,
      no severe word, and no insult, threat or obscene word occurs. */
  lemma RuleVerdictClean(text: string)
    requires !IsBlank(text)
    ensures ToxicityReasons(CheckToxicity(text), false) == [] <==>
      CountPresent(ToxicWords, Lower(text)) <= 1 && CountPresent(SevereToxicWords, Lower(text)) == 0
      && !AnyPresent(InsultWords, Lower(text)) && !AnyPresent(ThreatWords, Lower(text))
      && !AnyPresent(ObsceneWords, Lower(text))
  {
    var c := CheckToxicity(text);
    ToxicityReasonsSpec(c, false);
    assert ToxicityReasons(c, false) == [] <==>
      c.toxicity < 0.5 && c.severeToxicity <= 0.5 && c.threat <= 0.5;
  }

  /** `moderate_content` of the rule-based service: start from a safe result,
      run the enabled checks, append the reasons their scores call for and
      clear `is_safe` on every blocking one. `urls` is the number of URL
      matches in the text. */
  method ModerateContent(text: string, checkToxicity: bool, checkSpam: bool, urls: nat)
    returns (results: Moderation)
    ensures results == Verdict(
      if checkToxicity then Some(CheckToxicity(text)) else None,
      if checkSpam then Some(SpamResult(text, urls)) else None,
      false)
  {
    results := Moderation(true, 0.0, 0.0, None, [], None);
    ghost var tox: Option<Categories> := None;
    if checkToxicity {
      var toxicityResults := CheckToxicity(text);
      results := FlagToxicity(results, toxicityResults, false);
      tox := Some(toxicityResults);
      assert results.flaggedReasons == ToxicityReasons(toxicityResults, false);
    }
    ghost var toxicityReasons := if tox.Some? then ToxicityReasons(tox.value, false) else [];
    assert results == Verdict(tox, None, false) by {
      VerdictReasons(tox, None, false);
    }
    ghost var spam: Option<(real, seq<string>)> := None;
    if checkSpam {
      var spamScore, spamPatterns := CheckSpam(text, urls);
      results := FlagSpam(results, spamScore, spamPatterns);
      spam := Some((spamScore, spamPatterns));
    }
    assert results.flaggedReasons == toxicityReasons + (if spam.Some? then SpamReasons(spam.value.0) else []);
    VerdictReasons(tox, spam, false);
    assert results == Verdict(tox, spam, false);
    assert tox == if checkToxicity then Some(CheckToxicity(text)) else None;
    assert spam == if checkSpam then Some(SpamResult(text, urls)) else None;
  }
}
