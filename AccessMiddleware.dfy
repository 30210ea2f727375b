/**
 * `SubscriptionMiddleware.__call__` (app/middlewares/subscription.py): the
 * gate every incoming message passes before its handler. The decision reads
 * the settings and a snapshot of the `users` table and changes neither.
 */
module AccessMiddleware {
  import opened Wrappers
  import opened Text
  import opened Config
  import opened Repository
  import opened SubscriptionService

  /** What the middleware does with a message. */
  datatype Outcome =
    | Proceed                  // the handler is awaited and its result returned
    | Refuse(reply: string)    // one answer is sent, the handler is not called, the result is None

  /** The commands anyone may send. */
  const OpenCommands: seq<string> := ["/start", "/help", "/buy", "/admin"]

  /** The answer to a message refused for lack of a subscription. */
  const DenialText: string :=
    "⛔" + " <b>Доступ закрыт</b>\n\n"
    + "Ваша подписка истекла или не была активирована.\n"
    + "Оформите доступ, чтобы продолжить пользоваться ботом.\n\n"
    + "👉" + " Нажмите /buy для оформления."

  /** `event.text and event.text.startswith(("/start", "/help", "/buy", "/admin"))`. */
  predicate IsOpenCommand(text: Option<string>) {
    && text.Some? && text.value != ""
    && exists k | 0 <= k < |OpenCommands| :: StartsWith(text.value, OpenCommands[k])
  }

  /**
   * The middleware's checks in their order: the open commands, a message
   * with no sender, an administrator, and finally the subscription.
   */
  function Decide(text: Option<string>, sender: Option<int>, settings: Settings, rows: seq<User>, now: int): Outcome {
    if IsOpenCommand(text) then Proceed
    else if sender.None? then Proceed
    else if IsAdmin(settings, sender.value) then Proceed
    else if HasAccess(Find(rows, sender.value), now) then Proceed
    else Refuse(DenialText)
  }

  /**
   * A message is refused exactly when it is no open command, has a sender,
   * the sender is no administrator and has no active subscription; the
   * refusal always carries the denial text.
   */
  lemma RefusedExactly(text: Option<string>, sender: Option<int>, settings: Settings, rows: seq<User>, now: int)
    ensures Decide(text, sender, settings, rows, now).Refuse? <==>
      && !IsOpenCommand(text)
      && sender.Some?
      && !IsAdmin(settings, sender.value)
      && !HasAccess(Find(rows, sender.value), now)
    ensures Decide(text, sender, settings, rows, now).Refuse? ==>
      Decide(text, sender, settings, rows, now).reply == DenialText
  {
  }

  /**
   * The open-command test is a prefix test and comes first: such a message
   * passes whoever sends it (`/administrator` and `/start@bot` included).
   */
  lemma OpenCommandsPass(text: string, sender: Option<int>, settings: Settings, rows: seq<User>, now: int, k: int)
    requires 0 <= k < |OpenCommands| && StartsWith(text, OpenCommands[k])
    ensures Decide(Some(text), sender, settings, rows, now) == Proceed
  {
    assert text != "";
  }

  /** Concretely: `/administrator` and `/buy now` pass without sender, admin rights or a subscription. */
  lemma OpenCommandExamples(text1: string, text2: string, sender: Option<int>, settings: Settings, rows: seq<User>, now: int)
    requires text1 == "/administrator" && text2 == "/buy now"
    ensures Decide(Some(text1), sender, settings, rows, now) == Proceed
    ensures Decide(Some(text2), sender, settings, rows, now) == Proceed
  {
    assert StartsWith(text1, OpenCommands[3]);
    assert StartsWith(text2, OpenCommands[2]);
  }

  /** A message without a sender passes. */
  lemma NoSenderPasses(text: Option<string>, settings: Settings, rows: seq<User>, now: int)
    ensures Decide(text, None, settings, rows, now) == Proceed
  {
  }

  /** An administrator passes whatever the table says about them. */
  lemma AdminPasses(text: Option<string>, sender: int, settings: Settings, rows: seq<User>, now: int)
    requires IsAdmin(settings, sender)
    ensures Decide(text, Some(sender), settings, rows, now) == Proceed
  {
  }

  /** Any other message passes exactly when its sender's subscription is active. */
  lemma SubscriptionDecides(text: Option<string>, sender: int, settings: Settings, rows: seq<User>, now: int)
    requires !IsOpenCommand(text) && !IsAdmin(settings, sender)
    ensures Decide(text, Some(sender), settings, rows, now) == Proceed <==> HasAccess(Find(rows, sender), now)
  {
  }

  /** A plain message from a user without a row, or without an expiry, is refused. */
  lemma UnsubscribedIsRefused(text: Option<string>, sender: int, settings: Settings, rows: seq<User>, now: int)
    requires !IsOpenCommand(text) && !IsAdmin(settings, sender)
    requires Find(rows, sender).None? || Find(rows, sender).value.subscriptionEnd == NoEnd
    ensures Decide(text, Some(sender), settings, rows, now) == Refuse(DenialText)
  {
    AccessFailsClosed(Find(rows, sender), now);
  }

  /** The denial points the user to `/buy`. */
  lemma DenialMentionsBuy()
    ensures IsInfix("/buy", DenialText)
  {
    var prefix := "⛔" + " <b>Доступ закрыт</b>\n\n"
      + "Ваша подписка истекла или не была активирована.\n"
      + "Оформите доступ, чтобы продолжить пользоваться ботом.\n\n"
      + "👉" + " Нажмите ";
    InfixOfConcat(prefix, "/buy", " для оформления.");
    assert DenialText == prefix + "/buy" + " для оформления.";
  }
}
