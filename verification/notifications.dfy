/** The four messages sent once an order is paid: the customer's e-mail, the
    owner's e-mail, the customer's SMS and the owner's chat message. Each one's
    outcome is recorded, and nothing else depends on it. */
module Notifications {
  import opened Common
  import opened OrderModel
  import Email
  import Hubtel
  import Telegram

  /** Everything outside the program that the four sends consult. `totalText` is
      the order total as JavaScript prints a number; `dateText` the locale date. */
  datatype NotifyEnv = NotifyEnv(
    confirmation: Email.MailEnv, alert: Email.MailEnv, ownerEmail: string,
    smsDelivered: bool, totalText: string,
    botReady: bool, chatDelivered: bool, dateText: string)

  datatype Sent = Sent(
    confirmation: Result<Email.Mail, string>,
    alert: Result<Email.Mail, string>,
    sms: Result<Hubtel.Sms, string>,
    chat: Result<Telegram.Notification, string>)

  /** The fan-out in `createOrder` and `verifyPayment`: every send is attempted
      whatever the others did. */
  function Notify(o: Order, env: NotifyEnv): Sent {
    Sent(Email.SendOrderConfirmation(o, env.confirmation),
         Email.SendNewOrderAlert(o, env.ownerEmail, env.alert),
         Hubtel.SendConfirmation(o.customer.phone, o.customer.name, o.orderNumber, env.totalText,
                                 env.smsDelivered),
         Telegram.SendNewOrderNotification(o, env.dateText, env.botReady, env.chatDelivered))
  }

  /** Each send succeeds by its own conditions alone, to its own recipient. */
  lemma NotifyOutcomes(o: Order, env: NotifyEnv)
    ensures var s := Notify(o, env);
            && (s.confirmation.Ok? <==> env.confirmation.template.Some? && env.confirmation.delivered)
            && (s.alert.Ok? <==> env.alert.template.Some? && env.alert.delivered)
            && (s.sms.Ok? <==> Hubtel.Normalize(o.customer.phone).Ok? && env.smsDelivered)
            && (s.chat.Ok? <==> env.botReady && env.chatDelivered)
            && (s.confirmation.Ok? ==> s.confirmation.value.to == o.customer.email)
            && (s.alert.Ok? ==> s.alert.value.to == env.ownerEmail)
            && (s.chat.Ok? ==> s.chat.value.text == Telegram.Body(o, env.dateText))
  {
  }
}
