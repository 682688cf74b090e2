/**
 * `check_spam`, which both moderation services carry in identical copies:
 * the spam keywords found in the lower-cased text, then four structural
 * patterns (many URLs, mostly capitals, many exclamation marks, a character
 * repeated five times), and a score of 0.2 per pattern capped at 1.0.
 *
 * The URL regular expression is not modelled: the number of its matches in
 * the text is a parameter. Scores are exact reals; the binary64 behaviour of
 * the score thresholds is modelled separately at the end of the module.
 */
module SpamCheck {
  import opened Common
  import opened Strings
  import opened ScoreUtils
  import opened ModerationPolicy

  const SpamKeywords: seq<string> := [
    "click here", "buy now", "limited offer", "act now", "free money", "earn $$$",
    "work from home", "weight loss", "viagra", "casino", "lottery", "prize winner"]

  const ExcessiveUrls: string := "excessive_urls"
  const ExcessiveCaps: string := "excessive_caps"
  const ExcessiveExclamation: string := "excessive_exclamation"
  const RepeatedCharacters: string := "repeated_characters"

  /** Every pattern `check_spam` can report, in the order it checks them. */
  const SpamPatternNames: seq<string> :=
    SpamKeywords + [ExcessiveUrls, ExcessiveCaps, ExcessiveExclamation, RepeatedCharacters]

  /** The keywords of the list that occur in the text, in list order. */
  function MatchedKeywords(keywords: seq<string>, lowerText: string): (m: seq<string>)
    ensures |m| <= |keywords|
  {
    if |keywords| == 0 then []
    else
      MatchedKeywords(keywords[..|keywords| - 1], lowerText)
      + (if Contains(lowerText, keywords[|keywords| - 1]) then [keywords[|keywords| - 1]] else [])
  }

  /** More than ten characters, over half of them capitals (`caps / len > 0.5`,
      stated without division). */
  predicate MostlyCapitals(text: string) {
    |text| > 10 && 2 * CountUpper(text) > |text|
  }

  /** The patterns reported for a non-blank text with `urls` URL matches. */
  function SpamPatterns(text: string, urls: nat): (ps: seq<string>)
    ensures |ps| <= |SpamPatternNames|
  {
    MatchedKeywords(SpamKeywords, Lower(text))
    + (if urls > 2 then [ExcessiveUrls] else [])
    + (if MostlyCapitals(text) then [ExcessiveCaps] else [])
    + (if CountChar(text, '!') > 3 then [ExcessiveExclamation] else [])
    + (if HasRepeatedRun(text) then [RepeatedCharacters] else [])
  }

  /** `min(1.0, n * 0.2)` in exact arithmetic. */
  function SpamScore(n: nat): real {
    CapAtOne(n as real * 0.2)
  }

  /** The `(spam_score, patterns)` pair `check_spam` returns. */
  function SpamResult(text: string, urls: nat): (real, seq<string>) {
    if IsBlank(text) then (0.0, [])
    else (SpamScore(|SpamPatterns(text, urls)|), SpamPatterns(text, urls))
  }

  /** `check_spam`: a blank text scores 0.0 with no patterns; otherwise the
      keywords are collected in list order, the four structural patterns are
      appended, and the score is 0.2 per pattern, capped at 1.0. */
  method CheckSpam(text: string, urls: nat) returns (spamScore: real, patterns: seq<string>)
    ensures (spamScore, patterns) == SpamResult(text, urls)
    ensures 0.0 <= spamScore <= 1.0
  {
    if IsBlank(text) {
      return 0.0, [];
    }
    patterns := CollectKeywords(Lower(text));
    ghost var found := patterns;
    if urls > 2 {
      patterns := patterns + [ExcessiveUrls];
    }
    ghost var withUrls := patterns;
    assert withUrls == found + (if urls > 2 then [ExcessiveUrls] else []);
    if |text| > 10 {
      var capsCount := CountUpper(text);
      if 2 * capsCount > |text| {
        patterns := patterns + [ExcessiveCaps];
      }
    }
    ghost var withCaps := patterns;
    assert withCaps == withUrls + (if MostlyCapitals(text) then [ExcessiveCaps] else []);
    if CountChar(text, '!') > 3 {
      patterns := patterns + [ExcessiveExclamation];
    }
    ghost var withMarks := patterns;
    assert withMarks == withCaps + (if CountChar(text, '!') > 3 then [ExcessiveExclamation] else []);
    if HasRepeatedRun(text) {
      patterns := patterns + [RepeatedCharacters];
    }
    assert patterns == withMarks + (if HasRepeatedRun(text) then [RepeatedCharacters] else []);
    spamScore := CapAtOne(|patterns| as real * 0.2);
  }

  /** The keyword loop of `check_spam`. */
  method CollectKeywords(textLower: string) returns (found: seq<string>)
    ensures found == MatchedKeywords(SpamKeywords, textLower)
  {
    found := [];
    var i := 0;
    while i < |SpamKeywords|
      invariant 0 <= i <= |SpamKeywords|
      invariant found == MatchedKeywords(SpamKeywords[..i], textLower)
    {
      assert SpamKeywords[..i + 1][..i] == SpamKeywords[..i];
      if Contains(textLower, SpamKeywords[i]) {
        found := found + [SpamKeywords[i]];
      }
      i := i + 1;
    }
    assert SpamKeywords[..i] == SpamKeywords;
  }

  // ---------------------------------------------------------------- the patterns against a reference

  /** Whether one named pattern fires for the text: a keyword when it occurs
      in the lower-cased text, each structural pattern under its own rule. */
  predicate Fires(pattern: string, text: string, urls: nat) {
    if pattern in SpamKeywords then Contains(Lower(text), pattern)
    else if pattern == ExcessiveUrls then urls > 2
    else if pattern == ExcessiveCaps then MostlyCapitals(text)
    else if pattern == ExcessiveExclamation then CountChar(text, '!') > 3
    else if pattern == RepeatedCharacters then HasRepeatedRun(text)
    else false
  }

  /** The names in the list that fire, in list order. */
  function Firing(names: seq<string>, text: string, urls: nat): seq<string> {
    if |names| == 0 then []
    else
      Firing(names[..|names| - 1], text, urls)
      + (if Fires(names[|names| - 1], text, urls) then [names[|names| - 1]] else [])
  }

  lemma {:induction false} FiringAppend(a: seq<string>, b: seq<string>, text: string, urls: nat)
    ensures Firing(a + b, text, urls) == Firing(a, text, urls) + Firing(b, text, urls)
    decreases |b|
  {
    if |b| > 0 {
      var b' := b[..|b| - 1];
      assert (a + b)[..|a + b| - 1] == a + b';
      FiringAppend(a, b', text, urls);
    } else {
      assert a + b == a;
    }
  }

  lemma {:induction false} MatchedKeywordsFiring(keywords: seq<string>, text: string, urls: nat)
    requires forall k :: k in keywords ==> k in SpamKeywords
    ensures MatchedKeywords(keywords, Lower(text)) == Firing(keywords, text, urls)
  {
    if |keywords| > 0 {
      var front := keywords[..|keywords| - 1];
      assert forall k :: k in front ==> k in keywords;
      MatchedKeywordsFiring(front, text, urls);
    }
  }

  lemma {:induction false} FiringMembership(names: seq<string>, text: string, urls: nat)
    ensures forall p :: p in Firing(names, text, urls) <==> p in names && Fires(p, text, urls)
  {
    if |names| > 0 {
      var front := names[..|names| - 1];
      FiringMembership(front, text, urls);
      assert names == front + [names[|names| - 1]];
    }
  }

  /** `sub` lists elements of `names` in increasing order of first occurrence. */
  predicate OrderedIn(names: seq<string>, sub: seq<string>) {
    (forall p :: p in sub ==> p in names)
    && forall i, j :: 0 <= i < j < |sub| ==> FirstIndex(names, sub[i]) < FirstIndex(names, sub[j])
  }

  /** Filtering a list without duplicates keeps the list's order. */
  lemma {:induction false} FiringOrder(names: seq<string>, text: string, urls: nat)
    requires NoDuplicates(names)
    ensures OrderedIn(names, Firing(names, text, urls))
  {
    if |names| > 0 {
      var front := names[..|names| - 1];
      var x := names[|names| - 1];
      assert names == front + [x];
      assert NoDuplicates(front) by {
        forall i, j | 0 <= i < j < |front| ensures front[i] != front[j] {
          assert front[i] == names[i] && front[j] == names[j];
        }
      }
      assert x !in front by {
        forall i | 0 <= i < |front| ensures front[i] != x {
          assert front[i] == names[i];
        }
      }
      FiringOrder(front, text, urls);
      OrderedSnoc(front, x, Firing(front, text, urls), Fires(x, text, urls));
    }
  }

  lemma OrderedSnoc(front: seq<string>, x: string, f: seq<string>, keep: bool)
    requires x !in front
    requires OrderedIn(front, f)
    ensures OrderedIn(front + [x], f + (if keep then [x] else []))
  {
    var names := front + [x];
    forall p | p in f ensures p in names && FirstIndex(names, p) == FirstIndex(front, p) {
      FirstIndexAppend(front, x, p);
    }
    if keep {
      FirstIndexOfNew(front, x);
      var g := f + [x];
      forall i, j | 0 <= i < j < |g| ensures FirstIndex(names, g[i]) < FirstIndex(names, g[j]) {
        assert g[i] == f[i] && f[i] in f;
        if j < |f| {
          assert g[j] == f[j] && f[j] in f;
        }
      }
    } else {
      assert f + [] == f;
    }
  }

  /** Elements listed in strictly increasing order of first occurrence are distinct. */
  lemma OrderedDistinct(names: seq<string>, f: seq<string>)
    requires OrderedIn(names, f)
    ensures NoDuplicates(f)
  {
    forall i, j | 0 <= i < j < |f| ensures f[i] != f[j] {
      assert f[i] in f && f[j] in f;
    }
  }

  lemma FlagsAreNotKeywords()
    ensures ExcessiveUrls !in SpamKeywords && ExcessiveCaps !in SpamKeywords
    ensures ExcessiveExclamation !in SpamKeywords && RepeatedCharacters !in SpamKeywords
  {
  }

  /** The four structural patterns fire under their own rules, in order. */
  lemma FlagsFiring(text: string, urls: nat)
    ensures Firing([ExcessiveUrls, ExcessiveCaps, ExcessiveExclamation, RepeatedCharacters], text, urls) ==
      (if urls > 2 then [ExcessiveUrls] else [])
      + (if MostlyCapitals(text) then [ExcessiveCaps] else [])
      + (if CountChar(text, '!') > 3 then [ExcessiveExclamation] else [])
      + (if HasRepeatedRun(text) then [RepeatedCharacters] else [])
  {
    FlagsAreNotKeywords();
    var f1 := [ExcessiveUrls];
    var f2 := f1 + [ExcessiveCaps];
    var f3 := f2 + [ExcessiveExclamation];
    var f4 := f3 + [RepeatedCharacters];
    assert f1[..0] == [];
    assert Firing(f1, text, urls) == (if urls > 2 then [ExcessiveUrls] else []);
    assert ExcessiveCaps != ExcessiveUrls by {
      assert ExcessiveCaps[10] != ExcessiveUrls[10];
    }
    assert |ExcessiveExclamation| == 21 && |RepeatedCharacters| == 19 && |ExcessiveUrls| == 14 && |ExcessiveCaps| == 14;
    assert f2[..1] == f1;
    assert Fires(ExcessiveCaps, text, urls) == MostlyCapitals(text);
    assert f3[..2] == f2;
    assert Fires(ExcessiveExclamation, text, urls) == (CountChar(text, '!') > 3);
    assert f4[..3] == f3;
    assert Fires(RepeatedCharacters, text, urls) == HasRepeatedRun(text);
    assert Firing(f2, text, urls) == Firing(f1, text, urls) + (if MostlyCapitals(text) then [ExcessiveCaps] else []);
    assert Firing(f3, text, urls) == Firing(f2, text, urls) + (if CountChar(text, '!') > 3 then [ExcessiveExclamation] else []);
    assert Firing(f4, text, urls) == Firing(f3, text, urls) + (if HasRepeatedRun(text) then [RepeatedCharacters] else []);
    assert f4 == [ExcessiveUrls, ExcessiveCaps, ExcessiveExclamation, RepeatedCharacters];
  }

  lemma SpamPatternNamesDistinct()
    ensures NoDuplicates(SpamPatternNames)
  {
  }

  /** The reported patterns are exactly the named patterns that fire, in the
      fixed order of `SpamPatternNames`, each at most once. */
  lemma SpamPatternsSpec(text: string, urls: nat)
    ensures SpamPatterns(text, urls) == Firing(SpamPatternNames, text, urls)
    ensures forall p :: p in SpamPatterns(text, urls) <==> p in SpamPatternNames && Fires(p, text, urls)
    ensures NoDuplicates(SpamPatterns(text, urls))
    ensures OrderedIn(SpamPatternNames, SpamPatterns(text, urls))
  {
    SpamPatternsAreFiring(text, urls);
    SpamPatternNamesDistinct();
    FiringMembership(SpamPatternNames, text, urls);
    FiringOrder(SpamPatternNames, text, urls);
    OrderedDistinct(SpamPatternNames, Firing(SpamPatternNames, text, urls));
  }

  lemma SpamPatternsAreFiring(text: string, urls: nat)
    ensures SpamPatterns(text, urls) == Firing(SpamPatternNames, text, urls)
  {
    var flags := [ExcessiveUrls, ExcessiveCaps, ExcessiveExclamation, RepeatedCharacters];
    MatchedKeywordsFiring(SpamKeywords, text, urls);
    FiringAppend(SpamKeywords, flags, text, urls);
    FlagsFiring(text, urls);
  }

  // ---------------------------------------------------------------- score thresholds

  /** The score is 0.2 per pattern up to five patterns and 1.0 from then on. */
  lemma SpamScoreSpec(n: nat)
    ensures 0.0 <= SpamScore(n) <= 1.0
    ensures n <= 5 ==> SpamScore(n) == n as real / 5.0
    ensures n >= 5 ==> SpamScore(n) == 1.0
  {
  }

  /** The verdict the thresholds 0.6 and 0.4 evidently intend, by number of
      patterns: four or more is spam, three a possible spam, fewer nothing. */
  function SpamReasonsByCount(n: nat): seq<Reason> {
    if n >= 4 then [Spam] else if n == 3 then [PossibleSpam] else []
  }

  /** With exact scores the spam branch of `moderate_content` follows the
      pattern count, and a possible spam is reachable. */
  lemma CorrectedSpamVerdict(n: nat)
    ensures SpamReasons(SpamScore(n)) == SpamReasonsByCount(n)
    ensures SpamReasons(SpamScore(3)) == [PossibleSpam]
  {
  }

  // ---------------------------------------------------------------- the thresholds in binary64

  /** `0.2`, `0.4` and `0.6` as the binary64 values Python stores for them. */
  const Double02: real := 3602879701896397.0 / 18014398509481984.0
  const Double04: real := 3602879701896397.0 / 9007199254740992.0
  const Double06: real := 5404319552844595.0 / 9007199254740992.0

  /** Round to the nearest multiple of `ulp`, ties to the even multiple. */
  function RoundHalfEven(x: real, ulp: real): real
    requires ulp > 0.0
  {
    var q := (x / ulp).Floor;
    var frac := x / ulp - q as real;
    if frac > 0.5 || (frac == 0.5 && q % 2 == 1) then (q + 1) as real * ulp else q as real * ulp
  }

  /** The spacing of binary64 values in the binades from 1/8 to 4. */
  function Ulp(x: real): real
    requires 0.125 <= x < 4.0
  {
    if x < 0.25 then 1.0 / 36028797018963968.0        // 2^-55
    else if x < 0.5 then 1.0 / 18014398509481984.0    // 2^-54
    else if x < 1.0 then 1.0 / 9007199254740992.0     // 2^-53
    else if x < 2.0 then 1.0 / 4503599627370496.0     // 2^-52
    else 1.0 / 2251799813685248.0                     // 2^-51
  }

  /** `n * 0.2` in binary64, for the at most sixteen patterns there can be. */
  function Binary64Score(n: nat): real
    requires n <= 16
  {
    if n == 0 then 0.0
    else RoundHalfEven(n as real * Double02, Ulp(n as real * Double02))
  }

  /** The spam branch as written, on binary64 scores. */
  function AsWrittenSpamReasons(n: nat): seq<Reason>
    requires n <= 16
  {
    var score := CapAtOne(Binary64Score(n));
    if score > Double06 then [Spam] else if score > Double04 then [PossibleSpam] else []
  }

  /** As written, three patterns already give `spam`, because `3 * 0.2` rounds
      above the stored `0.6`, while two give nothing, because `2 * 0.2` is the
      stored `0.4`; so `possible_spam` is never reported. */
  lemma AsWrittenSkipsPossibleSpam(n: nat)
    requires n <= 16
    ensures Binary64Score(2) == Double04
    ensures Binary64Score(3) > Double06
    ensures AsWrittenSpamReasons(3) == [Spam] != SpamReasonsByCount(3)
    ensures AsWrittenSpamReasons(n) != [PossibleSpam]
  {
    if n == 0 {
    } else if n == 1 {
    } else if n == 2 {
    } else if n == 3 {
    } else {
      assert Binary64Score(n) >= n as real * Double02 - Ulp(n as real * Double02);
    }
  }
}
