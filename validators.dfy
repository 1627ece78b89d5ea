/**
 * The three validators of the user handlers: the Korean-script detector used
 * on names, the e-mail shape check and the age guard of the delete handler.
 */
module Validators {
  import opened Json

  /**
   * Membership in the regular-expression character class `[ㄱ-ㅎ|ㅏ-ㅣ|가-힣]`,
   * item by item: the range U+3131..U+314E, a literal `|`, the range
   * U+314F..U+3163, a literal `|` again and the range U+AC00..U+D7A3.
   * Inside a character class `|` is an ordinary character, not alternation.
   */
  predicate InKoreanClass(c: char) {
    ('\U{3131}' <= c <= '\U{314E}')
    || c == '|'
    || ('\U{314F}' <= c <= '\U{3163}')
    || c == '|'
    || ('\U{AC00}' <= c <= '\U{D7A3}')
  }

  /**
   * `containsKorean(text)`: the unanchored regular-expression test, a scan
   * for one position whose character is in the class. All ranges lie in the
   * Basic Multilingual Plane below the surrogates, so scanning Unicode scalar
   * values gives the same answer as scanning UTF-16 code units.
   */
  function ContainsKorean(text: string): (r: bool)
    ensures r <==> exists i :: 0 <= i < |text| && InKoreanClass(text[i])
    decreases |text|
  {
    if |text| == 0 then false
    else if InKoreanClass(text[0]) then true
    else
      var rest := ContainsKorean(text[1..]);
      assert forall i :: 1 <= i < |text| ==> text[i] == text[1..][i - 1];
      rest
  }

  /** A concatenation tests as Korean iff one of its parts does. */
  lemma ContainsKoreanConcat(a: string, b: string)
    ensures ContainsKorean(a + b) <==> ContainsKorean(a) || ContainsKorean(b)
  {
    var ab := a + b;
    if ContainsKorean(ab) {
      var i :| 0 <= i < |ab| && InKoreanClass(ab[i]);
      if i >= |a| {
        assert b[i - |a|] == ab[i];
      } else {
        assert a[i] == ab[i];
      }
    }
    if ContainsKorean(a) {
      var i :| 0 <= i < |a| && InKoreanClass(a[i]);
      assert ab[i] == a[i];
    }
    if ContainsKorean(b) {
      var i :| 0 <= i < |b| && InKoreanClass(b[i]);
      assert ab[|a| + i] == b[i];
    }
  }

  /** A non-null array element whose string form, the piece `join` writes for it, tests as Korean. */
  predicate KoreanElement(j: Json) {
    !j.JNull? && !ToStringThrows(j) && ContainsKorean(JsString(j))
  }

  /**
   * An array tests as Korean iff one of its non-null elements does: the
   * commas `join` inserts are not in the class.
   */
  lemma {:induction false} JoinKorean(items: seq<Json>)
    requires forall i :: 0 <= i < |items| && !items[i].JNull? ==> !ToStringThrows(items[i])
    ensures ContainsKorean(JoinElements(items)) <==>
              exists i :: 0 <= i < |items| && KoreanElement(items[i])
    decreases |items|
  {
    if |items| == 1 {
      assert JoinElements(items) == if items[0].JNull? then "" else JsString(items[0]);
    } else if |items| > 1 {
      var n := |items| - 1;
      var front := items[..n];
      JoinKorean(front);
      JoinStep(items);
      ExistsStep(items, front, KoreanElement);
    }
  }

  /** Some element of a sequence has a property iff some element of its prefix or its last one does. */
  lemma ExistsStep<T>(items: seq<T>, front: seq<T>, p: T -> bool)
    requires |items| > 0 && front == items[..|items| - 1]
    ensures (exists i :: 0 <= i < |items| && p(items[i])) <==>
              (exists i :: 0 <= i < |front| && p(front[i])) || p(items[|items| - 1])
  {
    if exists i :: 0 <= i < |front| && p(front[i]) {
      var i :| 0 <= i < |front| && p(front[i]);
      assert items[i] == front[i];
    }
    if exists i :: 0 <= i < |items| && p(items[i]) {
      var i :| 0 <= i < |items| && p(items[i]);
      if i < |front| {
        assert front[i] == items[i];
      }
    }
  }

  /** One step of the join: the front's join, a comma and the last piece. */
  lemma JoinStep(items: seq<Json>)
    requires |items| > 1
    requires forall i :: 0 <= i < |items| && !items[i].JNull? ==> !ToStringThrows(items[i])
    ensures ContainsKorean(JoinElements(items)) <==>
              ContainsKorean(JoinElements(items[..|items| - 1])) || KoreanElement(items[|items| - 1])
  {
    var last := items[|items| - 1];
    var piece := if last.JNull? then "" else JsString(last);
    var head := JoinElements(items[..|items| - 1]);
    assert JoinElements(items) == head + "," + piece;
    ContainsKoreanConcat(head, ",");
    ContainsKoreanConcat(head + ",", piece);
    assert !ContainsKorean(",") by {
      assert !InKoreanClass(","[0]);
    }
  }

  /** The class is the jamo block U+3131..U+3163, the syllables U+AC00..U+D7A3 and `|`. */
  lemma KoreanClassRanges(c: char)
    ensures InKoreanClass(c) <==>
      (0x3131 <= c as int <= 0x3163) || (0xAC00 <= c as int <= 0xD7A3) || c == '|'
  {
  }

  /** Any text with a `|` in it counts as Korean. */
  lemma PipeCountsAsKorean(text: string, i: nat)
    requires i < |text| && text[i] == '|'
    ensures ContainsKorean(text)
  {
    assert InKoreanClass(text[i]);
  }

  /** `isValidEmail(email)`: a string with at least one `@`; any other value is invalid. */
  function IsValidEmail(email: Json): (r: bool)
    ensures r <==> email.JStr? && exists i :: 0 <= i < |email.s| && email.s[i] == '@'
  {
    email.JStr? && '@' in email.s
  }

  /** One minute, in milliseconds. */
  const OneMinuteMs: int := 60000

  /**
   * `isOlderThanOneMinute(timestamp)` with the clock made explicit: both the
   * creation time and the current time are milliseconds since the epoch.
   */
  function IsOlderThanOneMinute(createdAtMs: int, nowMs: int): (r: bool)
    ensures r <==> createdAtMs + OneMinuteMs <= nowMs
  {
    nowMs - createdAtMs >= OneMinuteMs
  }

  /** Once old enough, a record stays old enough as time goes on. */
  lemma AgeGuardMonotone(createdAtMs: int, nowMs: int, laterMs: int)
    requires nowMs <= laterMs
    requires IsOlderThanOneMinute(createdAtMs, nowMs)
    ensures IsOlderThanOneMinute(createdAtMs, laterMs)
  {
  }

  /** Exactly 60000 ms after creation the guard opens; one millisecond earlier it is closed. */
  lemma AgeGuardBoundary(createdAtMs: int)
    ensures !IsOlderThanOneMinute(createdAtMs, createdAtMs)
    ensures !IsOlderThanOneMinute(createdAtMs, createdAtMs + OneMinuteMs - 1)
    ensures IsOlderThanOneMinute(createdAtMs, createdAtMs + OneMinuteMs)
  {
  }

  /** The string forms of numbers, booleans, null and objects never contain a class character. */
  lemma {:induction false} NonTextNeverKorean(j: Json)
    requires !j.JStr? && !j.JArr? && !ToStringThrows(j)
    ensures !ContainsKorean(JsString(j))
  {
    match j
    case JNum(n) =>
      IntDecimalNumerals(n);
    case _ =>
  }

  /** Examples: Hangul names are rejected, Latin ones pass, and a name with a pipe is rejected too. */
  lemma KoreanExamples()
    ensures ContainsKorean("민수")
    ensures !ContainsKorean("Minsu")
    ensures ContainsKorean("Min|su")
    ensures ContainsKorean(JsString(JArr([JStr("민수")])))
  {
    assert InKoreanClass("민수"[0]);
    assert InKoreanClass("Min|su"[3]);
    assert JsString(JArr([JStr("민수")])) == "민수";
  }
}
