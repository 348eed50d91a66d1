/** The shared string constants of the services and the smart-meter-id format rule. */
module Constants {

  /** Key of the assigned plan id in a comparison response. */
  const PricePlanIdKey := "pricePlanId"
  /** Key of the per-plan cost map in a comparison response. */
  const PricePlanComparisonsKey := "pricePlanComparisons"
  /** Returned by a store request whose batch fails validation. */
  const InputIsInvalid := "Input is invalid. Please give valid input."
  /** Name of the sentinel entry of a recommendation for a meter id with no entry in the store. */
  const ErrorName := "error"
  /** Returned by a store request whose batch was accepted. */
  const Success := "success"
  /** The meter-id pattern, applied to the whole id as by String.matches. The model does not
      interpret regular expressions: MatchesSmartMeterIdPattern below is this pattern's
      reading, written out by hand. */
  const SmartMeterIdRegex := "^[^-]*-[^-]*-[^-]*$"

  /** The language of [^-]*: strings without a hyphen. */
  predicate NoHyphen(s: string) {
    forall i :: 0 <= i < |s| ==> s[i] != '-'
  }

  /** The whole of `s` is matched by SmartMeterIdRegex: it splits as
      [^-]* '-' [^-]* '-' [^-]*, the hyphens at positions i < j. */
  predicate MatchesSmartMeterIdPattern(s: string) {
    exists i, j | 0 <= i < j < |s| ::
      s[i] == '-' && s[j] == '-' && NoHyphen(s[..i]) && NoHyphen(s[i + 1..j]) && NoHyphen(s[j + 1..])
  }

  /** Number of hyphens in `s`: the reference definition the pattern is compared with. */
  function CountHyphens(s: string): (n: nat)
    ensures n <= |s|
  {
    if s == [] then 0 else (if s[0] == '-' then 1 else 0) + CountHyphens(s[1..])
  }

  lemma {:induction false} CountHyphensConcat(a: string, b: string)
    ensures CountHyphens(a + b) == CountHyphens(a) + CountHyphens(b)
  {
    if a == [] {
      assert a + b == b;
    } else {
      assert (a + b)[1..] == a[1..] + b;
      CountHyphensConcat(a[1..], b);
    }
  }

  lemma {:induction false} NoHyphenIffNoneCounted(s: string)
    ensures NoHyphen(s) <==> CountHyphens(s) == 0
  {
    if s != [] {
      NoHyphenIffNoneCounted(s[1..]);
      assert NoHyphen(s) <==> s[0] != '-' && NoHyphen(s[1..]) by {
        if s[0] != '-' && NoHyphen(s[1..]) {
          forall i | 0 <= i < |s| ensures s[i] != '-' {
            if i > 0 { assert s[i] == s[1..][i - 1]; }
          }
        }
      }
    }
  }

  /** Position of the first hyphen of a string that has one. */
  function FirstHyphen(s: string): (i: nat)
    requires CountHyphens(s) > 0
    ensures i < |s| && s[i] == '-' && NoHyphen(s[..i])
  {
    if s[0] == '-' then 0
    else
      var k := FirstHyphen(s[1..]);
      assert s[..k + 1] == [s[0]] + s[1..][..k];
      k + 1
  }

  /** Splitting at the hyphens at positions i < j: a hyphen-free prefix, middle and suffix
      is exactly a count of two. */
  lemma SplitCount(s: string, i: int, j: int)
    requires 0 <= i < j < |s| && s[i] == '-' && s[j] == '-'
    ensures CountHyphens(s) == CountHyphens(s[..i]) + CountHyphens(s[i + 1..j]) + CountHyphens(s[j + 1..]) + 2
  {
    var a, m, c := s[..i], s[i + 1..j], s[j + 1..];
    var t1 := [s[j]] + c;
    var t2 := m + t1;
    var t3 := [s[i]] + t2;
    assert s == a + t3;
    CountHyphensConcat(a, t3);
    CountHyphensConcat([s[i]], t2);
    CountHyphensConcat(m, t1);
    CountHyphensConcat([s[j]], c);
    HyphenCounted(s[i]);
    HyphenCounted(s[j]);
  }

  lemma HyphenCounted(x: char)
    requires x == '-'
    ensures CountHyphens([x]) == 1
  {
    assert [x][1..] == [];
  }

  /** Dropping everything up to and including the first hyphen drops one hyphen. */
  lemma CountAfterFirstHyphen(s: string)
    requires CountHyphens(s) > 0
    ensures CountHyphens(s[FirstHyphen(s) + 1..]) == CountHyphens(s) - 1
  {
    var i := FirstHyphen(s);
    var t := s[i + 1..];
    var t1 := [s[i]] + t;
    assert s == s[..i] + t1;
    CountHyphensConcat(s[..i], t1);
    CountHyphensConcat([s[i]], t);
    HyphenCounted(s[i]);
    NoHyphenIffNoneCounted(s[..i]);
  }

  lemma {:induction false} MatchImpliesTwoHyphens(s: string)
    requires MatchesSmartMeterIdPattern(s)
    ensures CountHyphens(s) == 2
  {
    var i, j :| 0 <= i < j < |s| && s[i] == '-' && s[j] == '-'
      && NoHyphen(s[..i]) && NoHyphen(s[i + 1..j]) && NoHyphen(s[j + 1..]);
    SplitCount(s, i, j);
    NoHyphenIffNoneCounted(s[..i]);
    NoHyphenIffNoneCounted(s[i + 1..j]);
    NoHyphenIffNoneCounted(s[j + 1..]);
  }

  lemma {:induction false} TwoHyphensMatch(s: string)
    requires CountHyphens(s) == 2
    ensures MatchesSmartMeterIdPattern(s)
  {
    var i := FirstHyphen(s);
    var t := s[i + 1..];
    CountAfterFirstHyphen(s);
    var k := FirstHyphen(t);
    var j := i + 1 + k;
    assert s[j] == t[k];
    SplitCount(s, i, j);
    NoHyphenIffNoneCounted(s[..i]);
    NoHyphenIffNoneCounted(s[i + 1..j]);
    NoHyphenIffNoneCounted(s[j + 1..]);
  }

  /** The meter-id pattern accepts exactly the strings with two hyphens; the three
      segments may be empty. */
  lemma {:induction false} MatchesIffTwoHyphens(s: string)
    ensures MatchesSmartMeterIdPattern(s) <==> CountHyphens(s) == 2
  {
    if MatchesSmartMeterIdPattern(s) {
      MatchImpliesTwoHyphens(s);
    }
    if CountHyphens(s) == 2 {
      TwoHyphensMatch(s);
    }
  }

  /** The valid id of the controller tests matches: its hyphens are at 5 and 11. */
  lemma ValidTestIdMatches()
    ensures MatchesSmartMeterIdPattern("smart-meter-0")
  {
    var s := "smart-meter-0";
    assert s[5] == '-' && s[11] == '-';
    assert NoHyphen(s[..5]) && NoHyphen(s[6..11]) && NoHyphen(s[12..]) by {
      assert s[0] == 's' && s[1] == 'm' && s[2] == 'a' && s[3] == 'r' && s[4] == 't';
      assert s[6] == 'm' && s[7] == 'e' && s[8] == 't' && s[9] == 'e' && s[10] == 'r';
      assert s[12] == '0';
    }
  }

  /** The invalid id of the controller tests does not match: its only hyphen is at 5. */
  lemma InvalidTestIdDoesNotMatch()
    ensures !MatchesSmartMeterIdPattern("smart-meter")
  {
    var s := "smart-meter";
    forall k | 0 <= k < |s| && s[k] == '-' ensures k == 5 {
      assert s[0] == 's' && s[1] == 'm' && s[2] == 'a' && s[3] == 'r' && s[4] == 't';
      assert s[6] == 'm' && s[7] == 'e' && s[8] == 't' && s[9] == 'e' && s[10] == 'r';
    }
  }

  /** Empty segments are accepted: the pattern does not demand a character between hyphens. */
  lemma EmptySegmentsMatch()
    ensures MatchesSmartMeterIdPattern("--")
    ensures MatchesSmartMeterIdPattern("a--b")
  {
    var s, t := "--", "a--b";
    assert s[..0] == [] && s[1..1] == [] && s[2..] == [];
    assert s[0] == '-' && s[1] == '-';
    assert t[..1] == "a" && t[2..2] == [] && t[3..] == "b";
    assert t[1] == '-' && t[2] == '-';
  }

  /** The two keys of a comparison response differ, so such a response has two entries;
      a store request's two answers differ too. */
  lemma KeysAndAnswersDistinct()
    ensures PricePlanIdKey != PricePlanComparisonsKey
    ensures Success != InputIsInvalid
  {
    assert PricePlanIdKey[9] != PricePlanComparisonsKey[9];
    assert Success[0] != InputIsInvalid[0];
  }
}
