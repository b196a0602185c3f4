/** Language detection of `main.py`: which reply language a message gets. */
module Language {

  import opened Strings

  const Tamil := "ta"
  const Hindi := "hi"

  /** Keywords that select Tamil, in the order they are tried. */
  const TamilKeywords: seq<string> := ["tamil", "தமிழ்", "ta"]

  /** Keywords that select Hindi, in the order they are tried. */
  const HindiKeywords: seq<string> := ["hindi", "हिंदी", "hi"]

  /** Tamil Nadu area codes: the two digits after the country code. */
  const TnAreaCodes: set<string> := {"41", "44", "45", "46", "47", "48", "49"}

  /** A WhatsApp sender with India's country code. */
  const IndiaPrefix := "whatsapp:+91"

  /** Python's `s[:n]`: the first `n` characters, or all of a shorter string. */
  function Take(s: string, n: nat): (r: string)
    ensures |r| == if |s| <= n then |s| else n
    ensures r == s[..|r|]
  {
    if |s| <= n then s else s[..n]
  }

  /** Python's `s[n:]`: everything after the first `n` characters, or nothing. */
  function Drop(s: string, n: nat): (r: string)
    ensures |r| == if |s| <= n then 0 else |s| - n
    ensures |s| > n ==> r == s[n..]
  {
    if |s| <= n then "" else s[n..]
  }

  /** The field after `whatsapp:` is there and starts with `+91`. */
  lemma NumberField(phone: string)
    requires StartsWith(phone, IndiaPrefix)
    ensures |Split(phone, ':')| >= 2 && StartsWith(Split(phone, ':')[1], "+91")
  {
    var rest := phone[9..];
    assert phone == "whatsapp" + [':'] + rest;
    SplitAfter("whatsapp", ':', rest);
    assert StartsWith(rest, "+91") by {
      assert rest[..3] == phone[..12][9..];
    }
    SplitFirstField(rest, "+91", ':');
  }

  /**
   `phone.split(":")[1][:4][2:]` as `main.py` writes it: the slice counts
   the `+` of the country code, so it yields `1` followed by the first
   digit of the subscriber number.
   */
  function AreaCodeAsWritten(phone: string): string
    requires StartsWith(phone, IndiaPrefix)
  {
    NumberField(phone);
    Drop(Take(Split(phone, ':')[1], 4), 2)
  }

  /** The two digits after `+91`, which the slice above is evidently meant to pick. */
  function AreaCode(phone: string): (r: string)
    requires StartsWith(phone, IndiaPrefix)
    ensures |r| <= 2
  {
    NumberField(phone);
    Drop(Take(Split(phone, ':')[1], 5), 3)
  }

  /** `detect_language` as `main.py` writes it: keywords in the lower-cased body, then the area code. */
  function DetectLanguageAsWritten(phone: string, body: string): (r: string)
    ensures r == Tamil || r == Hindi
  {
    var low := Lower(body);
    if AnyIn(TamilKeywords, low) then Tamil
    else if AnyIn(HindiKeywords, low) then Hindi
    else if StartsWith(phone, IndiaPrefix) && AreaCodeAsWritten(phone) in TnAreaCodes then Tamil
    else Hindi
  }

  /** `detect_language` with the area code read from the digits after `+91`. */
  function DetectLanguage(phone: string, body: string): (r: string)
    ensures r == Tamil || r == Hindi
  {
    var low := Lower(body);
    if AnyIn(TamilKeywords, low) then Tamil
    else if AnyIn(HindiKeywords, low) then Hindi
    else if StartsWith(phone, IndiaPrefix) && AreaCode(phone) in TnAreaCodes then Tamil
    else Hindi
  }

  /**
   As written, the area-code branch is dead: after `whatsapp:+91` the sliced
   code always starts with `1`, while every Tamil Nadu code starts with `4`.
   */
  lemma AreaCodeNeverTamilNadu(phone: string)
    requires StartsWith(phone, IndiaPrefix)
    ensures AreaCodeAsWritten(phone) !in TnAreaCodes
  {
    NumberField(phone);
    var field := Split(phone, ':')[1];
    assert field[2] == '1';
  }

  /** An empty body holds no keyword. */
  lemma EmptyBodyNoKeywords()
    ensures !AnyIn(TamilKeywords, Lower("")) && !AnyIn(HindiKeywords, Lower(""))
  {
    assert Lower("") == "";
    forall k | k in TamilKeywords + HindiKeywords ensures !Contains("", k) {
    }
  }

  /** A Chennai number with no keyword in the body: Hindi as written, Tamil once corrected. */
  lemma ChennaiNumberAsWritten()
    ensures DetectLanguageAsWritten(IndiaPrefix + "4412345678", "") == Hindi
    ensures DetectLanguage(IndiaPrefix + "4412345678", "") == Tamil
  {
    EmptyBodyNoKeywords();
    assert IndiaPrefix + "4412345678" == IndiaPrefix + ['4', '4'] + "12345678";
    AreaCodeDigits('4', '4', "12345678");
    AreaCodeNeverTamilNadu(IndiaPrefix + "4412345678");
  }

  /** The corrected area code is the two characters after `+91`. */
  lemma AreaCodeDigits(a: char, b: char, rest: string)
    requires a != ':' && b != ':'
    ensures StartsWith(IndiaPrefix + [a, b] + rest, IndiaPrefix)
    ensures AreaCode(IndiaPrefix + [a, b] + rest) == [a, b]
  {
    var phone := IndiaPrefix + [a, b] + rest;
    assert StartsWith(phone, IndiaPrefix) by {
      assert phone[..|IndiaPrefix|] == IndiaPrefix;
    }
    var t := "+91" + [a, b] + rest;
    assert phone == "whatsapp" + [':'] + t;
    SplitAfter("whatsapp", ':', t);
    assert StartsWith(t, "+91" + [a, b]) by {
      assert t[..5] == "+91" + [a, b];
    }
    SplitFirstField(t, "+91" + [a, b], ':');
    var field := Split(phone, ':')[1];
    assert field[..5] == "+91" + [a, b];
  }

  /** Each keyword list collapses to two tests: the English name contains the code. */
  lemma TamilKeywordsReduce(low: string)
    ensures AnyIn(TamilKeywords, low) <==> Contains(low, TamilKeywords[1]) || Contains(low, Tamil)
  {
    if AnyIn(TamilKeywords, low) {
      var i :| 0 <= i < |TamilKeywords| && Contains(low, TamilKeywords[i]);
      if i == 0 {
        assert OccursAt(TamilKeywords[0], Tamil, 0);
        ContainsTransitive(low, TamilKeywords[0], Tamil);
      }
    }
    if Contains(low, Tamil) {
      assert Contains(low, TamilKeywords[2]);
    }
  }

  /** Likewise for Hindi: `hindi` contains `hi`. */
  lemma HindiKeywordsReduce(low: string)
    ensures AnyIn(HindiKeywords, low) <==> Contains(low, HindiKeywords[1]) || Contains(low, Hindi)
  {
    if AnyIn(HindiKeywords, low) {
      var i :| 0 <= i < |HindiKeywords| && Contains(low, HindiKeywords[i]);
      if i == 0 {
        assert OccursAt(HindiKeywords[0], Hindi, 0);
        ContainsTransitive(low, HindiKeywords[0], Hindi);
      }
    }
    if Contains(low, Hindi) {
      assert Contains(low, HindiKeywords[2]);
    }
  }

  /**
   As written, the result depends on the body alone and is Tamil exactly
   when the lower-cased body contains `ta` or the Tamil word for Tamil; the
   Hindi keyword test and the phone number never change the outcome.
   */
  lemma DetectLanguageAsWrittenByBody(phone: string, body: string)
    ensures DetectLanguageAsWritten(phone, body) == Tamil
            <==> Contains(Lower(body), TamilKeywords[1]) || Contains(Lower(body), Tamil)
  {
    TamilKeywordsReduce(Lower(body));
    if StartsWith(phone, IndiaPrefix) {
      AreaCodeNeverTamilNadu(phone);
    }
  }

  /**
   Corrected, a body without keywords from an Indian number is answered in
   Tamil exactly when the two digits after `+91` are a Tamil Nadu code.
   */
  lemma TamilNaduNumbers(a: char, b: char, rest: string, body: string)
    requires a != ':' && b != ':'
    requires !AnyIn(TamilKeywords, Lower(body)) && !AnyIn(HindiKeywords, Lower(body))
    ensures DetectLanguage(IndiaPrefix + [a, b] + rest, body) == Tamil <==> [a, b] in TnAreaCodes
  {
    AreaCodeDigits(a, b, rest);
  }

  /** The correction only matters when the body holds no keyword. */
  lemma KeywordsDecideAlike(phone: string, body: string)
    requires AnyIn(TamilKeywords, Lower(body)) || AnyIn(HindiKeywords, Lower(body))
    ensures DetectLanguage(phone, body) == DetectLanguageAsWritten(phone, body)
    ensures DetectLanguage(phone, body) == Tamil <==> Contains(Lower(body), TamilKeywords[1]) || Contains(Lower(body), Tamil)
  {
    TamilKeywordsReduce(Lower(body));
  }

  /** The Tamil list is tried first: a body with both `ta` and `hi` is Tamil. */
  lemma TamilBeforeHindi(phone: string, body: string)
    requires Contains(Lower(body), Tamil) && Contains(Lower(body), Hindi)
    ensures DetectLanguageAsWritten(phone, body) == Tamil
  {
    assert Contains(Lower(body), TamilKeywords[2]);
  }
}
