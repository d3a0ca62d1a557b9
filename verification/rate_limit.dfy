/**
 * The error classifier shared (as two identical copies) by the chat and the
 * recommendations flows: an error counts as a rate-limit hit iff its
 * lower-cased message contains one of four keywords. A missing message is
 * read as the empty string.
 */
module RateLimit {
  import opened Wrappers

  /** ASCII-only lowering of one character (`String.prototype.toLowerCase` restricted to ASCII). */
  function LowerChar(c: char): (r: char)
    ensures 'A' <= c <= 'Z' ==> r as int == c as int + 32
    ensures !('A' <= c <= 'Z') ==> r == c
    ensures !('A' <= r <= 'Z')
  {
    if 'A' <= c <= 'Z' then (c as int + 32) as char else c
  }

  /** `toLowerCase`, character by character. */
  function Lower(s: string): (r: string)
    ensures |r| == |s|
    ensures forall i :: 0 <= i < |s| ==> r[i] == LowerChar(s[i])
  {
    seq(|s|, i requires 0 <= i < |s| => LowerChar(s[i]))
  }

  /** Lowering twice is lowering once. */
  lemma LowerIdempotent(s: string)
    ensures Lower(Lower(s)) == Lower(s)
  {
  }

  /** `s` begins with `prefix`. */
  predicate StartsWith(s: string, prefix: string) {
    |prefix| <= |s| && s[..|prefix|] == prefix
  }

  /** `s.includes(sub)`, scanning left to right. */
  predicate Contains(s: string, sub: string)
    decreases |s|
  {
    StartsWith(s, sub) || (|s| > 0 && Contains(s[1..], sub))
  }

  /** `sub` occurs in `s` starting at position `i`: the reference meaning of `includes`. */
  ghost predicate OccursAt(s: string, sub: string, i: int) {
    0 <= i && i + |sub| <= |s| && s[i..i + |sub|] == sub
  }

  /** The scanning `Contains` holds exactly when `sub` occurs somewhere in `s`. */
  lemma {:induction false} ContainsIff(s: string, sub: string)
    ensures Contains(s, sub) <==> exists i :: OccursAt(s, sub, i)
    decreases |s|
  {
    assert StartsWith(s, sub) <==> OccursAt(s, sub, 0);
    if |s| > 0 {
      var tail := s[1..];
      ContainsIff(tail, sub);
      forall i | OccursAt(tail, sub, i)
        ensures OccursAt(s, sub, i + 1)
      {
        assert s[i + 1..i + 1 + |sub|] == tail[i..i + |sub|];
      }
      if j :| OccursAt(s, sub, j) {
        if j > 0 {
          assert tail[j - 1..j - 1 + |sub|] == s[j..j + |sub|];
          assert OccursAt(tail, sub, j - 1);
        }
      }
    } else {
      if j :| OccursAt(s, sub, j) {
        assert j == 0;
      }
    }
  }

  /** The four substrings that mark an error as throttling. */
  const RateLimitKeywords: seq<string> := ["quota", "limit", "429", "rate"]

  /** `error?.message?.toLowerCase?.() ?? ''`. */
  function NormalizedMessage(message: Option<string>): (text: string)
    ensures message.None? ==> text == ""
    ensures message.Some? ==> |text| == |message.value|
    ensures message.Some? ==> forall i :: 0 <= i < |text| ==> text[i] == LowerChar(message.value[i])
    ensures forall i :: 0 <= i < |text| ==> !('A' <= text[i] <= 'Z')
  {
    Lower(message.GetOr(""))
  }

  /** The `isRateLimit` test of the catch block. */
  function IsRateLimit(message: Option<string>): (r: bool)
    ensures message.None? ==> !r
  {
    var text := NormalizedMessage(message);
    Contains(text, "quota") || Contains(text, "limit") || Contains(text, "429") || Contains(text, "rate")
  }

  /** The classifier, stated without the scanning loop: some keyword occurs in the lowered message. */
  lemma IsRateLimitIff(message: Option<string>)
    ensures IsRateLimit(message) <==>
      exists k, i :: k in RateLimitKeywords && OccursAt(NormalizedMessage(message), k, i)
  {
    var text := NormalizedMessage(message);
    ContainsIff(text, "quota");
    ContainsIff(text, "limit");
    ContainsIff(text, "429");
    ContainsIff(text, "rate");
  }

  /** A keyword found at a known position in the lowered message makes it a rate-limit hit. */
  lemma KeywordMakesRateLimit(message: string, k: string, i: nat)
    requires k in RateLimitKeywords
    requires OccursAt(Lower(message), k, i)
    ensures IsRateLimit(Some(message))
  {
    IsRateLimitIff(Some(message));
  }

  /** Lower-casing a message first does not change its classification. */
  lemma CaseInsensitive(message: string)
    ensures IsRateLimit(Some(message)) == IsRateLimit(Some(Lower(message)))
  {
    LowerIdempotent(message);
  }

  /** A missing message is read as `''` and therefore never counts as a rate-limit hit. */
  lemma MissingMessageIsNotRateLimit()
    ensures NormalizedMessage(None) == ""
    ensures !IsRateLimit(None)
  {
  }

  /**
   * The rule is a bare substring test: "QUOTA" in any case counts, and so does
   * "rate" inside an unrelated word such as "generate".
   */
  lemma SubstringQuirks()
    ensures IsRateLimit(Some("Quota exceeded"))
    ensures IsRateLimit(Some("Failed to generate content"))
  {
    var upper := "Quota exceeded";
    assert Lower(upper)[..5] == "quota";
    KeywordMakesRateLimit(upper, "quota", 0);
    var word := "Failed to generate content";
    assert Lower(word)[14..18] == "rate";
    KeywordMakesRateLimit(word, "rate", 14);
  }

  /** No keyword occurs in "internal error". */
  lemma NoKeywordInInternalError(text: string, k: string, i: int)
    requires text == "internal error"
    requires k in RateLimitKeywords
    ensures !OccursAt(text, k, i)
  {
    if 0 <= i && i + |k| <= |text| {
      var window := text[i..i + |k|];
      if k == "quota" {
        assert window[0] == text[i] && 'q' !in text;
      } else if k == "limit" {
        assert window[2] == text[i + 2] && 'm' !in text;
      } else if k == "429" {
        assert window[0] == text[i] && '4' !in text;
      } else {
        assert window[0] == text[i] && window[1] == text[i + 1];
        assert i == 0 || i == 1 || i == 2 || i == 3 || i == 4 || i == 5 || i == 6 || i == 7 || i == 8 || i == 9 || i == 10;
      }
    }
  }

  /** A message none of whose keywords occurs, such as "internal error", is not a rate-limit hit. */
  lemma InternalErrorIsNotRateLimit()
    ensures !IsRateLimit(Some("internal error"))
  {
    var message := "internal error";
    var text := NormalizedMessage(Some(message));
    assert text == message;
    IsRateLimitIff(Some(message));
    forall k, i | k in RateLimitKeywords
      ensures !OccursAt(text, k, i)
    {
      NoKeywordInInternalError(text, k, i);
    }
  }
}
