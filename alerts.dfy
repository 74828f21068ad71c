/** `sendWhatsAppAlerts` (functions/index.js lines 35-62): when a webhook URL
    is configured, one POST per notification number, in order, each carrying
    the alert text for the alert type; a failing call is caught and the loop
    goes on, so the function never throws. */
module Alerts {
  import opened Runtime

  /** `NOTIFICATION_NUMBERS`. */
  const NotificationNumbers: seq<string> := ["918800954628", "919150400011", "919176982286"]

  datatype AlertType = QuoteAlert | ContactAlert

  const QuoteHeadline: string := "\U{1F514} NEW QUOTE REQUEST"
  const ContactHeadline: string := "\U{1F4DE} NEW CONTACT"

  /** The last line of every alert: the mailbox to check. */
  const CheckLine: string := "\nCheck: happyguy0809@gmail.com"

  /** The first line of the alert: a bell for a quote, a telephone for a contact. */
  function Headline(t: AlertType): (h: string)
    ensures |h| > 1 && h[0] == if t == QuoteAlert then '\U{1F514}' else '\U{1F4DE}'
  {
    match t
    case QuoteAlert => QuoteHeadline
    case ContactAlert => ContactHeadline
  }

  /** `messages[alertType]`: the headline for the type, a `From:` line with
      the company name, and the mailbox to check. */
  function AlertText(t: AlertType, companyName: string): (r: string)
    ensures var n := |Headline(t)|;
            && |r| == n + 7 + |companyName| + |CheckLine|
            && r[..n] == Headline(t)
            && r[n..n + 7] == "\nFrom: "
            && r[n + 7..n + 7 + |companyName|] == companyName
            && r[n + 7 + |companyName|..] == CheckLine
    ensures r[0] == if t == QuoteAlert then '\U{1F514}' else '\U{1F4DE}'
  {
    Headline(t) + "\nFrom: " + companyName + CheckLine
  }

  /** The JSON body of one webhook call: `{phone, message}`. */
  datatype WebhookCall = WebhookCall(phone: string, message: string)

  /** One attempt and whether the webhook accepted it. */
  datatype AlertOutcome = AlertOutcome(call: WebhookCall, delivered: bool)

  /** The calls the loop makes, in order. */
  function PlannedCalls(webhookUrl: Option<string>, t: AlertType, companyName: string): (r: seq<WebhookCall>)
    ensures !Truthy(webhookUrl) ==> r == []
    ensures Truthy(webhookUrl) ==> |r| == |NotificationNumbers|
    ensures forall k :: 0 <= k < |r| ==> r[k] == WebhookCall(NotificationNumbers[k], AlertText(t, companyName))
  {
    if Truthy(webhookUrl) then
      seq(|NotificationNumbers|, k requires 0 <= k < |NotificationNumbers| =>
        WebhookCall(NotificationNumbers[k], AlertText(t, companyName)))
    else []
  }

  /** The calls recorded in a list of outcomes. */
  function CallsOf(outcomes: seq<AlertOutcome>): (r: seq<WebhookCall>)
    ensures |r| == |outcomes|
    ensures forall k :: 0 <= k < |r| ==> r[k] == outcomes[k].call
  {
    if outcomes == [] then [] else [outcomes[0].call] + CallsOf(outcomes[1..])
  }

  /** The fan-out. `fetchOk` says whether the webhook accepts a call; the
      answer is recorded and never interrupts the loop. */
  method SendWhatsAppAlerts(webhookUrl: Option<string>, t: AlertType, companyName: string, fetchOk: WebhookCall -> bool)
    returns (outcomes: seq<AlertOutcome>)
    ensures CallsOf(outcomes) == PlannedCalls(webhookUrl, t, companyName)
    ensures forall k :: 0 <= k < |outcomes| ==> outcomes[k].delivered == fetchOk(outcomes[k].call)
  {
    outcomes := [];
    if Truthy(webhookUrl) {
      var message := AlertText(t, companyName);
      for i := 0 to |NotificationNumbers|
        invariant |outcomes| == i
        invariant forall k :: 0 <= k < i ==> outcomes[k].call == WebhookCall(NotificationNumbers[k], message)
        invariant forall k :: 0 <= k < i ==> outcomes[k].delivered == fetchOk(outcomes[k].call)
      {
        var call := WebhookCall(NotificationNumbers[i], message);
        var delivered := fetchOk(call);
        outcomes := outcomes + [AlertOutcome(call, delivered)];
      }
    }
  }
}
