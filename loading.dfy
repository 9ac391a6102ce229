/**
  The two content fetchers, `getQuote` and `getFact`, and the loading
  indicators they drive through `showLoading`: one spinner per panel and one
  refresh button shared by both.
 */
module Loading {
  import opened Wrappers

  datatype Fetcher = QuoteFetcher | FactFetcher

  /**
    What the request for a fetcher settles with: the parsed body (`None` when
    it is null), a response whose status is not ok, or the message of an error
    the transport threw.
   */
  datatype Reply<T> = Received(body: Option<seq<T>>) | HttpError(status: nat, statusText: string) | Thrown(message: string)

  /** Decimal digits of `n`, as a template literal prints a status code. */
  function Decimal(n: nat): (s: string)
    ensures |s| >= 1
    ensures forall i :: 0 <= i < |s| ==> '0' <= s[i] <= '9'
    ensures (n == 0) == (s == "0")
    ensures s[0] == '0' ==> n == 0
  {
    if n < 10 then [DigitChar(n)] else Decimal(n / 10) + [DigitChar(n % 10)]
  }

  function DigitChar(d: nat): (c: char)
    requires d < 10
    ensures '0' <= c <= '9' && c as int - '0' as int == d
  {
    ('0' as int + d) as char
  }

  /** The number a string of decimal digits denotes. */
  function DigitsValue(s: string): nat
    requires forall i :: 0 <= i < |s| ==> '0' <= s[i] <= '9'
  {
    if s == [] then 0 else 10 * DigitsValue(s[..|s| - 1]) + (s[|s| - 1] as int - '0' as int)
  }

  /** The status code can be read back from its printed form. */
  lemma {:induction false} DecimalRoundTrip(n: nat)
    ensures DigitsValue(Decimal(n)) == n
  {
    var s := Decimal(n);
    if n >= 10 {
      DecimalRoundTrip(n / 10);
      assert s[..|s| - 1] == Decimal(n / 10);
      assert s[|s| - 1] as int - '0' as int == n % 10;
      assert n == 10 * (n / 10) + n % 10;
    } else {
      assert s[..0] == [];
    }
  }

  /**
    The message of the error the request layer throws for a response that is
    not ok: the fixed lead-in, the status code in decimal, a space and the
    status text, so the code and the text can be cut out of it again.
   */
  function HttpMessage(status: nat, statusText: string): (m: string)
    ensures var n := |"API request failed: "|;
            |m| == n + |Decimal(status)| + 1 + |statusText| &&
            m[..n] == "API request failed: " &&
            m[n..n + |Decimal(status)|] == Decimal(status) &&
            m[n + |Decimal(status)|] == ' ' &&
            m[n + |Decimal(status)| + 1..] == statusText
  {
    "API request failed: " + Decimal(status) + " " + statusText
  }

  /** The message thrown when the body is missing or empty. */
  function EmptyMessage(f: Fetcher): string
  {
    if f == QuoteFetcher then "No quotes found for this category" else "No facts available"
  }

  /** The prefix the fetcher's `catch` puts before every message it rethrows. */
  function Prefix(f: Fetcher): string
  {
    if f == QuoteFetcher then "Failed to get quote: " else "Failed to get fact: "
  }

  /**
    The message of the error the fetcher's `try` block throws, if any: none
    exactly for a non-empty array, and a transport error's message passed on
    unchanged.
   */
  function InnerError<T>(f: Fetcher, reply: Reply<T>): (e: Option<string>)
    ensures e.None? <==> reply.Received? && reply.body.Some? && |reply.body.value| > 0
    ensures reply.Thrown? ==> e == Some(reply.message)
  {
    match reply
    case Received(body) =>
      if body.None? || |body.value| == 0 then Some(EmptyMessage(f)) else None
    case HttpError(status, statusText) => Some(HttpMessage(status, statusText))
    case Thrown(message) => Some(message)
  }

  /**
    What `getQuote` / `getFact` resolve or reject with, for a given reply:
    element 0 of a non-empty array, and otherwise an error whose message
    starts with the fetcher's prefix.
   */
  function Settle<T>(f: Fetcher, reply: Reply<T>): (r: Result<T, string>)
    ensures r.Success? <==> reply.Received? && reply.body.Some? && |reply.body.value| > 0
    ensures r.Success? ==> r.value == reply.body.value[0]
    ensures r.Failure? ==> |Prefix(f)| <= |r.error| && r.error[..|Prefix(f)|] == Prefix(f)
  {
    match InnerError(f, reply)
    case Some(message) => Failure(Prefix(f) + message)
    case None => Success(reply.body.value[0])
  }

  /**
    A fetch succeeds exactly when the body is a non-empty array, and then with
    its first element; every failure carries the fetcher's prefix followed by
    the message of the error underneath.
   */
  lemma SettleShape<T>(f: Fetcher, reply: Reply<T>)
    ensures Settle(f, reply).Success? <==> reply.Received? && reply.body.Some? && |reply.body.value| > 0
    ensures Settle(f, reply).Success? ==> Settle(f, reply).value == reply.body.value[0]
    ensures Settle(f, reply).Failure? ==>
              var e := Settle(f, reply).error;
              |Prefix(f)| <= |e| && e[..|Prefix(f)|] == Prefix(f) &&
              Some(e[|Prefix(f)|..]) == InnerError(f, reply)
  {
  }

  /** A missing or empty body fails the quote fetch with its full "not found" message. */
  lemma SettleEmptyQuotes<T>(reply: Reply<T>)
    requires reply.Received? && (reply.body.None? || reply.body.value == [])
    ensures Settle(QuoteFetcher, reply) == Failure("Failed to get quote: " + "No quotes found for this category")
  {
  }

  /** A missing or empty body fails the fact fetch with its full "not available" message. */
  lemma SettleEmptyFacts<T>(reply: Reply<T>)
    requires reply.Received? && (reply.body.None? || reply.body.value == [])
    ensures Settle(FactFetcher, reply) == Failure("Failed to get fact: " + "No facts available")
  {
  }

  /** A non-ok response fails with its status code and text behind the prefix. */
  lemma SettleHttpError<T>(f: Fetcher, status: nat, statusText: string)
    ensures var r := Settle<T>(f, HttpError(status, statusText));
            r.Failure? &&
            r.error == Prefix(f) + "API request failed: " + Decimal(status) + " " + statusText
  {
    var m := HttpMessage(status, statusText);
    assert InnerError<T>(f, HttpError(status, statusText)) == Some(m);
    assert Prefix(f) + m == Prefix(f) + "API request failed: " + Decimal(status) + " " + statusText;
  }

  /**
    The panel spinners (the loading element shown and the content marked as
    updating) and the refresh button's `disabled` flag.
   */
  class Indicators {
    var quoteLoading: bool
    var factLoading: bool
    var refreshDisabled: bool

    function Spinner(f: Fetcher): bool
      reads this
    {
      if f == QuoteFetcher then quoteLoading else factLoading
    }

    /** The flags as the page's markup sets them before any fetch. */
    constructor (quoteLoading: bool, factLoading: bool, refreshDisabled: bool)
      ensures this.quoteLoading == quoteLoading && this.factLoading == factLoading
      ensures this.refreshDisabled == refreshDisabled
    {
      this.quoteLoading, this.factLoading, this.refreshDisabled := quoteLoading, factLoading, refreshDisabled;
    }

    /**
      `showLoading(type, isLoading)`: sets the spinner of the one panel, and
      the one shared refresh button, to `isLoading`; the other panel's spinner
      is left as it was.
     */
    method ShowLoading(f: Fetcher, isLoading: bool)
      modifies this
      ensures Spinner(f) == isLoading && refreshDisabled == isLoading
      ensures f == QuoteFetcher ==> factLoading == old(factLoading)
      ensures f == FactFetcher ==> quoteLoading == old(quoteLoading)
    {
      if f == QuoteFetcher {
        quoteLoading := isLoading;
      } else {
        factLoading := isLoading;
      }
      refreshDisabled := isLoading;
    }

    /** The part of a fetch before its request is awaited. */
    method Begin(f: Fetcher)
      modifies this
      ensures Spinner(f) && refreshDisabled
      ensures f == QuoteFetcher ==> factLoading == old(factLoading)
      ensures f == FactFetcher ==> quoteLoading == old(quoteLoading)
    {
      ShowLoading(f, true);
    }

    /**
      The part of a fetch after its request settles with `reply`: reject a
      missing or empty body, take element 0 otherwise, prefix any error, and
      in `finally` clear the spinner and re-enable the button whatever
      happened.
     */
    method Finish<T>(f: Fetcher, reply: Reply<T>) returns (r: Result<T, string>)
      modifies this
      ensures r == Settle(f, reply)
      ensures !Spinner(f) && !refreshDisabled
      ensures f == QuoteFetcher ==> factLoading == old(factLoading)
      ensures f == FactFetcher ==> quoteLoading == old(quoteLoading)
    {
      var thrown: Option<string> := None;
      match reply {
        case Received(body) =>
          if body.None? || |body.value| == 0 {
            thrown := Some(EmptyMessage(f));
          } else {
            r := Success(body.value[0]);
          }
        case HttpError(status, statusText) =>
          thrown := Some(HttpMessage(status, statusText));
        case Thrown(message) =>
          thrown := Some(message);
      }
      if thrown.Some? {
        r := Failure(Prefix(f) + thrown.value);
      }
      ShowLoading(f, false);
    }

    /** `getQuote(category)`, with `reply` what the request for the category settles with. */
    method GetQuote<T>(reply: Reply<T>) returns (r: Result<T, string>)
      modifies this
      ensures r == Settle(QuoteFetcher, reply)
      ensures !quoteLoading && !refreshDisabled && factLoading == old(factLoading)
    {
      Begin(QuoteFetcher);
      r := Finish(QuoteFetcher, reply);
    }

    /** `getFact()`, with `reply` what the request settles with. */
    method GetFact<T>(reply: Reply<T>) returns (r: Result<T, string>)
      modifies this
      ensures r == Settle(FactFetcher, reply)
      ensures !factLoading && !refreshDisabled && quoteLoading == old(quoteLoading)
    {
      Begin(FactFetcher);
      r := Finish(FactFetcher, reply);
    }

    /**
      A refresh starts both fetches before either settles. The first one to
      settle re-enables the shared button while the other panel still shows
      its spinner.
     */
    method FirstToSettle<T>(first: Fetcher, reply: Reply<T>) returns (r: Result<T, string>)
      modifies this
      ensures r == Settle(first, reply)
      ensures !refreshDisabled && !Spinner(first)
      ensures first == QuoteFetcher ==> factLoading
      ensures first == FactFetcher ==> quoteLoading
    {
      Begin(QuoteFetcher);
      Begin(FactFetcher);
      r := Finish(first, reply);
    }
  }
}
