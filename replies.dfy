/** What every tool handler returns, and how every handler turns a thrown
    error into reply text. */
module Replies {
  import opened Js

  /** The HTTP verb of a remote request. */
  datatype Verb = Get | Post | Patch

  /** A handler's reply text, with the remote requests it issued, in the
      order it issued them (the token request is not among them). */
  datatype Reply<+R> = Reply(text: string, sent: seq<R>)

  /** The message `ensureAuthenticated` throws. */
  const AUTH_REQUIRED_MESSAGE := "Authentication required"

  const AUTH_REQUIRED_TEXT := "Authentication required. Please use the 'authenticate' tool first."

  /** The catch block shared by the handlers: the exact authentication
      message gets the authentication text; otherwise, for a handler that
      has a not-found text, a message containing "404" gets that text;
      everything else is `prefix` followed by the message. */
  function ErrorText(message: string, notFound: Option<string>, prefix: string): (r: string)
    ensures message == AUTH_REQUIRED_MESSAGE ==> r == AUTH_REQUIRED_TEXT
    ensures message != AUTH_REQUIRED_MESSAGE && notFound.Some? && Contains(message, "404") ==>
                r == notFound.value
    ensures message != AUTH_REQUIRED_MESSAGE && (notFound.None? || !Contains(message, "404")) ==>
                r == prefix + message
  {
    if message == AUTH_REQUIRED_MESSAGE then AUTH_REQUIRED_TEXT
    else if notFound.Some? && Contains(message, "404") then notFound.value
    else prefix + message
  }

  /** A handler without a not-found text passes every message other than
      the authentication one through, so the message is recoverable from
      the reply. */
  lemma ErrorTextKeepsMessage(message: string, prefix: string)
    requires message != AUTH_REQUIRED_MESSAGE
    ensures ErrorText(message, None, prefix)[|prefix|..] == message
  {
  }

  /** Any message that mentions the status 404, wherever in the message,
      is reported with the not-found text. */
  lemma NotFoundWherever(before: string, after: string, notFound: string, prefix: string)
    requires before + "404" + after != AUTH_REQUIRED_MESSAGE
    ensures ErrorText(before + "404" + after, Some(notFound), prefix) == notFound
  {
    ContainsInfix(before, "404", after);
  }
}
