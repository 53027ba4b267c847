/** The decisions of the in-app web view: which intercepted pages close it, and what
    the back button does. */
module WebView {
  import opened Streams
  import opened Strings

  const Authenticate: string := "authenticate"
  const CheckoutsPrefix: string := "checkouts/"
  const ThanksSuffix: string := "/thanks"

  /** The result key under which the thanks-page URL is handed back. */
  datatype IntentKey = RefreshProjectPage

  /** What the activity does in response to a page being intercepted. */
  datatype Action =
    | Finish
    | FinishWithAnimation(result: Option<(string, IntentKey)>)

  /** Java's `\d` without UNICODE_CHARACTER_CLASS: an ASCII digit. */
  predicate IsDigit(c: char) {
    '0' <= c <= '9'
  }

  /** The regex `checkouts/\d+/thanks` matches `url` starting at `i`, its digit run
      having length `n`. */
  ghost predicate ThanksMatchAt(url: string, i: int, n: int) {
    && 0 <= i
    && 1 <= n
    && i + |CheckoutsPrefix| + n + |ThanksSuffix| <= |url|
    && url[i..i + |CheckoutsPrefix|] == CheckoutsPrefix
    && (forall j :: i + |CheckoutsPrefix| <= j < i + |CheckoutsPrefix| + n ==> IsDigit(url[j]))
    && url[i + |CheckoutsPrefix| + n..i + |CheckoutsPrefix| + n + |ThanksSuffix|] == ThanksSuffix
  }

  /** `Regex("checkouts/\d+/thanks").containsMatchIn(url)`, as the regex reads. */
  ghost predicate ThanksPatternSpec(url: string) {
    exists i, n :: ThanksMatchAt(url, i, n)
  }

  /** The length of the run of digits starting at `j`. */
  function DigitRun(url: string, j: nat): (n: nat)
    requires j <= |url|
    ensures j + n <= |url|
    ensures forall k :: j <= k < j + n ==> IsDigit(url[k])
    ensures j + n < |url| ==> !IsDigit(url[j + n])
    decreases |url| - j
  {
    if j < |url| && IsDigit(url[j]) then 1 + DigitRun(url, j + 1) else 0
  }

  /** Because `/thanks` starts with a non-digit, a match at `i` must use the whole
      run of digits after `checkouts/`, so a greedy scan decides the regex. */
  predicate ThanksMatchesAt(url: string, i: nat)
    requires i <= |url|
  {
    && i + |CheckoutsPrefix| <= |url|
    && url[i..i + |CheckoutsPrefix|] == CheckoutsPrefix
    && var n := DigitRun(url, i + |CheckoutsPrefix|);
       && 1 <= n
       && i + |CheckoutsPrefix| + n + |ThanksSuffix| <= |url|
       && url[i + |CheckoutsPrefix| + n..i + |CheckoutsPrefix| + n + |ThanksSuffix|] == ThanksSuffix
  }

  lemma ThanksMatchesAtCorrect(url: string, i: nat)
    requires i <= |url|
    ensures ThanksMatchesAt(url, i) <==> exists n :: ThanksMatchAt(url, i, n)
  {
    var p := |CheckoutsPrefix|;
    if ThanksMatchesAt(url, i) {
      assert ThanksMatchAt(url, i, DigitRun(url, i + p));
    }
    forall n | ThanksMatchAt(url, i, n) ensures ThanksMatchesAt(url, i) {
      assert url[i + p + n] == ThanksSuffix[0];
      assert DigitRun(url, i + p) == n;
    }
  }

  /** The scan over every starting position. */
  function ThanksScan(url: string, i: nat): (b: bool)
    requires i <= |url|
    ensures b <==> exists j, n :: i <= j && ThanksMatchAt(url, j, n)
    decreases |url| - i
  {
    ThanksMatchesAtCorrect(url, i);
    if ThanksMatchesAt(url, i) then true
    else if i == |url| then
      assert forall j, n :: i <= j && ThanksMatchAt(url, j, n) ==> j == i;
      false
    else
      var r := ThanksScan(url, i + 1);
      assert forall j, n :: i <= j && ThanksMatchAt(url, j, n) ==> j == i || i + 1 <= j;
      r
  }

  /** `regex.containsMatchIn(url)` */
  function MatchesThanksPattern(url: string): (b: bool)
    ensures b <==> ThanksPatternSpec(url)
  {
    ThanksScan(url, 0)
  }

  /** `pageIntercepted(url)`: the two tests are independent and run in this order;
      a URL that passes both causes both actions. */
  function PageIntercepted(url: string): (actions: seq<Action>)
    ensures Finish in actions <==> ContainsSpec(url, Authenticate)
    ensures FinishWithAnimation(Some((url, RefreshProjectPage))) in actions <==> ThanksPatternSpec(url)
    ensures forall a :: a in actions ==> a == Finish || a == FinishWithAnimation(Some((url, RefreshProjectPage)))
    ensures |actions| <= 2
    ensures |actions| == 2 ==> actions[0] == Finish
  {
    (if Contains(url, Authenticate) then [Finish] else [])
    + (if MatchesThanksPattern(url) then [FinishWithAnimation(Some((url, RefreshProjectPage)))] else [])
  }

  /** What the back-press callback does. */
  datatype BackAction = GoBack | FinishScreen(action: Action)

  /** `onBackPressed`: step back through the web view's history while it has any,
      otherwise close the screen with its animation and no result. */
  function OnBackPressed(canGoBack: bool): (r: BackAction)
    ensures r == GoBack <==> canGoBack
    ensures !canGoBack ==> r == FinishScreen(FinishWithAnimation(None))
  {
    if canGoBack then GoBack else FinishScreen(FinishWithAnimation(None))
  }

  /** A thanks page with a numeric checkout id matches. */
  lemma {:induction false} ThanksPageMatches()
    ensures MatchesThanksPattern("https://ksr.com/checkouts/42/thanks")
  {
    assert ThanksMatchAt("https://ksr.com/checkouts/42/thanks", 16, 2);
  }

  /** A URL can trigger both actions, the plain finish first. */
  lemma {:induction false} BothActions()
    ensures PageIntercepted("authenticate/checkouts/1/thanks")
            == [Finish, FinishWithAnimation(Some(("authenticate/checkouts/1/thanks", RefreshProjectPage)))]
  {
    var x := "authenticate/checkouts/1/thanks";
    assert OccursAt(x, Authenticate, 0);
    assert ThanksMatchAt(x, 13, 1);
  }

  /** "checkouts//thanks": the regex needs at least one digit. */
  lemma NoDigitsNoMatch()
    ensures !MatchesThanksPattern("checkouts//thanks")
  {
    var w := "checkouts//thanks";
    forall i, n | ThanksMatchAt(w, i, n) ensures false {
    }
  }
}
