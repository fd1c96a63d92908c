/** The respond-to-event tool: accept, decline or tentatively accept a
    meeting invitation. */
module Respond {
  import opened Js
  import opened Replies

  /** The keys of `RESPONSE_ENDPOINTS` and `RESPONSE_LABELS`. */
  datatype ResponseKind = Accept | Decline | Tentative

  /** Looks a lower-cased response up among the three keys. */
  function ParseResponse(key: string): (r: Option<ResponseKind>)
    ensures r == Some(Accept) <==> key == "accept"
    ensures r == Some(Decline) <==> key == "decline"
    ensures r == Some(Tentative) <==> key == "tentative"
  {
    if key == "accept" then Some(Accept)
    else if key == "decline" then Some(Decline)
    else if key == "tentative" then Some(Tentative)
    else None
  }

  /** `RESPONSE_ENDPOINTS`. */
  function EndpointName(kind: ResponseKind): string {
    match kind
    case Accept => "accept"
    case Decline => "decline"
    case Tentative => "tentativelyAccept"
  }

  /** `RESPONSE_LABELS`. */
  function Label(kind: ResponseKind): string {
    match kind
    case Accept => "accepted"
    case Decline => "declined"
    case Tentative => "tentatively accepted"
  }

  /** Both tables give each response kind its own entry. */
  lemma ResponseTablesDistinct(a: ResponseKind, b: ResponseKind)
    requires a != b
    ensures EndpointName(a) != EndpointName(b)
    ensures Label(a) != Label(b)
  {
    assert EndpointName(a)[0] != EndpointName(b)[0] || |EndpointName(a)| != |EndpointName(b)|;
    assert Label(a)[0] != Label(b)[0] || |Label(a)| != |Label(b)|;
  }

  datatype RespondArgs = RespondArgs(
    eventId: Option<string>,
    response: Option<string>,
    comment: Option<string>,
    sendResponse: Option<bool>)

  datatype ResponseBody = ResponseBody(sendResponse: bool, comment: Option<string>)

  datatype RespondRequest = RespondRequest(verb: Verb, endpoint: string, body: ResponseBody)

  const EVENT_ID_REQUIRED_TEXT := "Event ID is required. Use 'list-events' to find event IDs."
  const RESPONSE_REQUIRED_TEXT := "Response is required. Must be one of: accept, decline, tentative"
  const EVENT_NOT_FOUND_TEXT :=
    "Event not found. The event may have been deleted or the ID is incorrect. Use 'list-events' to find valid event IDs."
  const RESPOND_ERROR_PREFIX := "Error responding to event: "
  const NOT_NOTIFIED_NOTE := "\n(Organizer was not notified)"

  function InvalidResponseText(response: string): string {
    "Invalid response '" + response + "'. Must be one of: accept, decline, tentative"
  }

  /** `sendResponse = true`: the default applies only when the flag is missing. */
  function SendsResponse(args: RespondArgs): bool {
    if args.sendResponse.Some? then args.sendResponse.value else true
  }

  /** The replies given before any remote call, checked in order: a missing
      event id, a missing response, then a response that is none of the
      three once lower-cased. */
  function RespondPrecheck(args: RespondArgs): (r: Option<string>)
    ensures !Truthy(args.eventId) ==> r == Some(EVENT_ID_REQUIRED_TEXT)
    ensures Truthy(args.eventId) && !Truthy(args.response) ==> r == Some(RESPONSE_REQUIRED_TEXT)
    ensures Truthy(args.eventId) && Truthy(args.response) ==>
              (r.None? <==> ToLower(args.response.value) in {"accept", "decline", "tentative"})
    ensures Truthy(args.eventId) && Truthy(args.response) && r.Some? ==>
              r == Some(InvalidResponseText(args.response.value))
  {
    if !Truthy(args.eventId) then Some(EVENT_ID_REQUIRED_TEXT)
    else if !Truthy(args.response) then Some(RESPONSE_REQUIRED_TEXT)
    else if ParseResponse(ToLower(args.response.value)).None? then Some(InvalidResponseText(args.response.value))
    else None
  }

  /** Upper or mixed case is accepted: a response is looked up by its
      lower-cased spelling, and looking up an already lower-cased one
      changes nothing. */
  lemma CaseInsensitiveResponse(response: string)
    ensures ParseResponse(ToLower(ToLower(response))) == ParseResponse(ToLower(response))
  {
    ToLowerIdempotent(response);
  }

  /** Spellings in upper and mixed case are known. */
  lemma UpperCaseAccept()
    ensures ParseResponse(ToLower("ACCEPT")) == Some(Accept)
  {
    assert ToLower("ACCEPT") == "accept";
  }

  lemma MixedCaseTentative()
    ensures ParseResponse(ToLower("Tentative")) == Some(Tentative)
  {
    var t := ToLower("Tentative");
    assert t[0] == LowerChar('T') == 't';
    forall i | 1 <= i < 9
      ensures t[i] == "tentative"[i]
    {
      assert "Tentative"[i] == "tentative"[i];
    }
    assert t == "tentative";
  }

  /** The body always carries `sendResponse`, and carries the comment only
      when it is non-empty. */
  method BuildResponseBody(sendResponse: bool, comment: Option<string>) returns (body: ResponseBody)
    ensures body.sendResponse == sendResponse
    ensures body.comment.Some? <==> Truthy(comment)
    ensures body.comment.Some? ==> body.comment == comment
  {
    body := ResponseBody(sendResponse, None);
    if Truthy(comment) {
      body := body.(comment := comment);
    }
  }

  const COMMENT_LINE_START := "\nComment: \""

  function Headline(kind: ResponseKind): string {
    "Event " + Label(kind) + " successfully."
  }

  function CommentNote(comment: Option<string>): string {
    if Truthy(comment) then COMMENT_LINE_START + comment.value + "\"" else ""
  }

  function NotifyNote(sendResponse: bool): string {
    if sendResponse then "" else NOT_NOTIFIED_NOTE
  }

  /** The success text. */
  function RespondedText(kind: ResponseKind, comment: Option<string>, sendResponse: bool): string {
    Headline(kind) + CommentNote(comment) + NotifyNote(sendResponse)
  }

  /** The text ends with the not-notified note exactly when no response is
      sent to the organizer. */
  lemma NotifiedNote(kind: ResponseKind, comment: Option<string>, sendResponse: bool)
    ensures EndsWith(RespondedText(kind, comment, sendResponse), NOT_NOTIFIED_NOTE) <==> !sendResponse
  {
    var r := RespondedText(kind, comment, sendResponse);
    var head := Headline(kind) + CommentNote(comment);
    if sendResponse {
      assert r == head;
      assert head[|head| - 1] != ')' by {
        if Truthy(comment) {
          assert head[|head| - 1] == '"';
        } else {
          assert head[|head| - 1] == '.';
        }
      }
      assert NOT_NOTIFIED_NOTE[|NOT_NOTIFIED_NOTE| - 1] == ')';
    } else {
      assert r == head + NOT_NOTIFIED_NOTE;
    }
  }

  /** A comment line follows the first sentence exactly when a non-empty
      comment was given. */
  lemma CommentLine(kind: ResponseKind, comment: Option<string>, sendResponse: bool)
    ensures Truthy(comment) <==> COMMENT_LINE_START <= RespondedText(kind, comment, sendResponse)[|Headline(kind)|..]
  {
    var h, c, n := Headline(kind), CommentNote(comment), NotifyNote(sendResponse);
    assert RespondedText(kind, comment, sendResponse) == h + (c + n);
    assert (h + (c + n))[|h|..] == c + n;
    NotesStartWithComment(comment, sendResponse);
  }

  lemma NotesStartWithComment(comment: Option<string>, sendResponse: bool)
    ensures Truthy(comment) <==> COMMENT_LINE_START <= CommentNote(comment) + NotifyNote(sendResponse)
  {
    var c, n := CommentNote(comment), NotifyNote(sendResponse);
    if Truthy(comment) {
      assert c + n == COMMENT_LINE_START + (comment.value + "\"" + n);
    } else {
      assert c + n == n;
      NotifyNoteIsNoComment(sendResponse);
    }
  }

  lemma NotifyNoteIsNoComment(sendResponse: bool)
    ensures !(COMMENT_LINE_START <= NotifyNote(sendResponse))
  {
    assert NOT_NOTIFIED_NOTE[1] == '(' && COMMENT_LINE_START[1] == 'C';
  }

  /** `handleRespondToEvent`. `auth` is the outcome of the token request and
      `posted` the outcome of the response request. */
  method HandleRespondToEvent(args: RespondArgs, auth: Remote<()>, posted: Remote<()>)
    returns (reply: Reply<RespondRequest>)
    ensures RespondPrecheck(args).Some? ==> reply == Reply(RespondPrecheck(args).value, [])
    ensures RespondPrecheck(args).None? && auth.Err? ==>
              reply == Reply(ErrorText(auth.message, Some(EVENT_NOT_FOUND_TEXT), RESPOND_ERROR_PREFIX), [])
    ensures RespondPrecheck(args).None? && auth.Ok? ==>
              var kind := ParseResponse(ToLower(args.response.value)).value;
              && |reply.sent| == 1
              && reply.sent[0].verb == Post
              && reply.sent[0].endpoint == "me/events/" + args.eventId.value + "/" + EndpointName(kind)
              && reply.sent[0].body.sendResponse == SendsResponse(args)
              && (reply.sent[0].body.comment.Some? <==> Truthy(args.comment))
              && (Truthy(args.comment) ==> reply.sent[0].body.comment == args.comment)
              && reply.text == (if posted.Ok? then RespondedText(kind, args.comment, SendsResponse(args))
                                else ErrorText(posted.message, Some(EVENT_NOT_FOUND_TEXT), RESPOND_ERROR_PREFIX))
  {
    var early := RespondPrecheck(args);
    if early.Some? {
      return Reply(early.value, []);
    }
    if auth.Err? {
      return Reply(ErrorText(auth.message, Some(EVENT_NOT_FOUND_TEXT), RESPOND_ERROR_PREFIX), []);
    }
    var kind := ParseResponse(ToLower(args.response.value)).value;
    var endpoint := "me/events/" + args.eventId.value + "/" + EndpointName(kind);
    var sendResponse := SendsResponse(args);
    var body := BuildResponseBody(sendResponse, args.comment);
    var request := RespondRequest(Post, endpoint, body);
    if posted.Err? {
      return Reply(ErrorText(posted.message, Some(EVENT_NOT_FOUND_TEXT), RESPOND_ERROR_PREFIX), [request]);
    }
    reply := Reply(RespondedText(kind, args.comment, sendResponse), [request]);
  }
}
