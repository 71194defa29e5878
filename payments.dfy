/**
 * The payment provider seen from the core: a collaborator asked to open a
 * checkout session or to refund the payment behind a session. Its answer is
 * whatever the provider says, given here as a parameter; the gateway keeps
 * the log of requests so that contracts can say which requests were made.
 */
module Payments {
  import opened Models

  datatype CheckoutRequest = CheckoutRequest(amount: int, currency: string, description: string,
                                             customerEmail: string, language: string)

  datatype CheckoutSession = CheckoutSession(url: string, sessionId: string)

  datatype CheckoutAnswer = Opened(session: CheckoutSession) | Refused(message: string)

  class PaymentGateway {
    /** Every checkout session requested, in order. */
    var checkouts: seq<CheckoutRequest>
    /** Every session whose payment a refund was requested for, in order. */
    var refunds: seq<string>

    constructor ()
      ensures checkouts == [] && refunds == []
    {
      checkouts := [];
      refunds := [];
    }

    method CreateCheckoutSession(request: CheckoutRequest, answer: CheckoutAnswer) returns (r: CheckoutAnswer)
      modifies this`checkouts
      ensures checkouts == old(checkouts) + [request]
      ensures r == answer
    {
      checkouts := checkouts + [request];
      r := answer;
    }

    /** `answer` is the provider's error message, if it reported one. */
    method RefundPaymentBySessionID(sessionId: string, answer: Option<string>) returns (err: Option<string>)
      modifies this`refunds
      ensures refunds == old(refunds) + [sessionId]
      ensures err == answer
    {
      refunds := refunds + [sessionId];
      err := answer;
    }
  }
}
