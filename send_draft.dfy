/** The send-draft tool: fetches a draft for the confirmation text, then
    sends it. */
module SendDraft {
  import opened Js
  import opened Replies

  datatype SendDraftArgs = SendDraftArgs(id: Option<string>)

  /** The fields of the fetched draft the confirmation uses; a missing
      recipient array is None. */
  datatype Draft = Draft(
    subject: Option<string>,
    toRecipients: Option<seq<string>>,
    ccRecipients: Option<seq<string>>,
    bccRecipients: Option<seq<string>>)

  /** The JSON body of a request: none, or the empty object `{}`. */
  datatype Body = NoBody | EmptyObject

  datatype DraftCall = DraftCall(verb: Verb, endpoint: string, body: Body)

  const DRAFT_ID_REQUIRED_TEXT := "Draft ID is required. Use list-emails with folder 'drafts' to find draft IDs."
  const DRAFT_NOT_FOUND_TEXT :=
    "Draft not found. The draft may have been deleted or already sent. Use list-emails with folder 'drafts' to see available drafts."
  const SEND_ERROR_PREFIX := "Error sending draft: "
  const NO_SUBJECT := "(no subject)"
  const RECIPIENTS_HEADING := "Recipients: "

  /** `(list || []).length`. */
  function CountOf(list: Option<seq<string>>): (n: nat)
    ensures list.None? ==> n == 0
    ensures list.Some? ==> n == |list.value|
  {
    if list.Some? then |list.value| else 0
  }

  /** The " + n CC" or " + n BCC" piece, or nothing for a count of 0. */
  function Extra(n: nat, kind: string): string {
    if n > 0 then " + " + NatToString(n) + " " + kind else ""
  }

  /** The recipients line: the To count always, the CC and BCC counts only
      when they are not 0. */
  function RecipientsLine(to: nat, cc: nat, bcc: nat): string {
    RECIPIENTS_HEADING + NatToString(to) + Extra(cc, "CC") + Extra(bcc, "BCC")
  }

  /** The confirmation text. */
  function SentText(draft: Draft): string {
    Join(["Draft sent successfully!", "", "Subject: " + OrElse(draft.subject, NO_SUBJECT),
          RecipientsLine(CountOf(draft.toRecipients), CountOf(draft.ccRecipients), CountOf(draft.bccRecipients))],
         "\n")
  }

  // ---------------------------------------------------------------------
  // Reading the recipients line back

  /** Reads an optional " + n BCC" tail. */
  function ReadBcc(s: string): Option<nat> {
    if s == "" then Some(0)
    else if " + " <= s then
      var (n, rest) := TakeNumber(s[3..]);
      if rest == " BCC" then Some(n) else None
    else None
  }

  /** Reads the tail after the To count: nothing, " + n CC", " + n BCC",
      or both, in that order. */
  function ReadExtras(s: string): Option<(nat, nat)> {
    if s == "" then Some((0, 0))
    else if !(" + " <= s) then None
    else
      var (n, after) := TakeNumber(s[3..]);
      if after == " BCC" then Some((0, n))
      else if " CC" <= after then
        match ReadBcc(after[3..])
        case None => None
        case Some(bcc) => Some((n, bcc))
      else None
  }

  /** Reads the counts back from a recipients line. */
  function ReadCounts(line: string): Option<(nat, nat, nat)> {
    if !(RECIPIENTS_HEADING <= line) then None
    else
      var (to, rest) := TakeNumber(line[|RECIPIENTS_HEADING|..]);
      match ReadExtras(rest)
      case None => None
      case Some((cc, bcc)) => Some((to, cc, bcc))
  }

  lemma ReadBccOf(bcc: nat)
    ensures ReadBcc(Extra(bcc, "BCC")) == Some(bcc)
  {
    if bcc > 0 {
      var s := Extra(bcc, "BCC");
      assert s[3..] == NatToString(bcc) + " BCC";
      TakeNumberOf(bcc, " BCC");
    }
  }

  lemma ReadExtrasWithCc(cc: nat, bcc: nat)
    requires cc > 0
    ensures ReadExtras(Extra(cc, "CC") + Extra(bcc, "BCC")) == Some((cc, bcc))
  {
    var after := " CC" + Extra(bcc, "BCC");
    var tail := " + " + (NatToString(cc) + after);
    assert Extra(cc, "CC") + Extra(bcc, "BCC") == tail;
    assert tail[3..] == NatToString(cc) + after;
    TakeNumberOf(cc, after);
    assert after != " BCC" by {
      assert after[1] == 'C';
    }
    assert " CC" <= after && after[3..] == Extra(bcc, "BCC");
    ReadBccOf(bcc);
  }

  lemma ReadExtrasBccOnly(bcc: nat)
    requires bcc > 0
    ensures ReadExtras(Extra(0, "CC") + Extra(bcc, "BCC")) == Some((0, bcc))
  {
    var tail := " + " + (NatToString(bcc) + " BCC");
    assert Extra(0, "CC") + Extra(bcc, "BCC") == tail;
    assert tail[3..] == NatToString(bcc) + " BCC";
    TakeNumberOf(bcc, " BCC");
  }

  lemma ReadExtrasOf(cc: nat, bcc: nat)
    ensures ReadExtras(Extra(cc, "CC") + Extra(bcc, "BCC")) == Some((cc, bcc))
  {
    if cc > 0 {
      ReadExtrasWithCc(cc, bcc);
    } else if bcc > 0 {
      ReadExtrasBccOnly(bcc);
    } else {
      assert Extra(cc, "CC") + Extra(bcc, "BCC") == "";
    }
  }

  /** The recipients line states the three counts unambiguously: they can
      be read back from it. */
  lemma RecipientsLineReadsBack(to: nat, cc: nat, bcc: nat)
    ensures ReadCounts(RecipientsLine(to, cc, bcc)) == Some((to, cc, bcc))
  {
    var tail := Extra(cc, "CC") + Extra(bcc, "BCC");
    var line := RECIPIENTS_HEADING + (NatToString(to) + tail);
    assert RecipientsLine(to, cc, bcc) == line;
    assert RECIPIENTS_HEADING <= line;
    assert line[|RECIPIENTS_HEADING|..] == NatToString(to) + tail;
    assert tail == [] || tail[0] == ' ';
    TakeNumberOf(to, tail);
    ReadExtrasOf(cc, bcc);
  }

  /** The confirmation ends with the recipients line, from which the
      draft's three recipient counts read back. */
  lemma SentTextReportsCounts(draft: Draft)
    ensures var to, cc, bcc := CountOf(draft.toRecipients), CountOf(draft.ccRecipients), CountOf(draft.bccRecipients);
      var line := RecipientsLine(to, cc, bcc);
      && EndsWith(SentText(draft), "\n" + line)
      && ReadCounts(line) == Some((to, cc, bcc))
  {
    var to, cc, bcc := CountOf(draft.toRecipients), CountOf(draft.ccRecipients), CountOf(draft.bccRecipients);
    var lines := ["Draft sent successfully!", "", "Subject: " + OrElse(draft.subject, NO_SUBJECT),
                  RecipientsLine(to, cc, bcc)];
    JoinLast(lines, "\n");
    RecipientsLineReadsBack(to, cc, bcc);
  }

  /** Without CC or BCC recipients the line is only the To count. */
  lemma ToCountOnly(to: nat)
    ensures RecipientsLine(to, 0, 0) == RECIPIENTS_HEADING + NatToString(to)
  {
  }

  /** A draft without any recipient arrays reports 0 recipients, and one
      without a subject reports "(no subject)". */
  lemma EmptyDraftText()
    ensures SentText(Draft(None, None, None, None)) ==
              "Draft sent successfully!" + "\n\n" + "Subject: (no subject)" + "\n" + "Recipients: 0"
  {
    var subject := "Subject: " + OrElse(None, NO_SUBJECT);
    var recipients := RecipientsLine(CountOf(None), CountOf(None), CountOf(None));
    assert subject == "Subject: (no subject)";
    assert recipients == "Recipients: 0" by {
      assert NatToString(0) == "0";
    }
    var lines := ["Draft sent successfully!", "", subject, recipients];
    assert SentText(Draft(None, None, None, None)) == Join(lines, "\n");
    assert Join([subject, recipients], "\n") == subject + "\n" + recipients by {
      assert [subject, recipients][1..] == [recipients];
    }
    assert Join(lines[1..], "\n") == "" + "\n" + (subject + "\n" + recipients) by {
      assert lines[1..][1..] == [subject, recipients];
    }
  }

  // ---------------------------------------------------------------------
  // The handler

  /** `handleSendDraft`. `auth` is the outcome of the token request,
      `fetched` that of the draft's GET and `posted` that of the send. */
  function HandleSendDraft(args: SendDraftArgs, auth: Remote<()>, fetched: Remote<Draft>, posted: Remote<()>)
    : (r: Reply<DraftCall>)
    ensures !Truthy(args.id) ==> r == Reply(DRAFT_ID_REQUIRED_TEXT, [])
    ensures Truthy(args.id) && auth.Err? ==> r.sent == []
    ensures Truthy(args.id) && auth.Ok? ==>
              && 1 <= |r.sent| <= 2
              && r.sent[0] == DraftCall(Get, "me/messages/" + args.id.value, NoBody)
              && (|r.sent| == 2 <==> fetched.Ok?)
              && (fetched.Ok? ==> r.sent[1] == DraftCall(Post, "me/messages/" + args.id.value + "/send", EmptyObject))
    ensures Truthy(args.id) ==>
              var failure := if auth.Err? then Some(auth.message)
                             else if fetched.Err? then Some(fetched.message)
                             else if posted.Err? then Some(posted.message)
                             else None;
              r.text == (if failure.Some? then ErrorText(failure.value, Some(DRAFT_NOT_FOUND_TEXT), SEND_ERROR_PREFIX)
                         else SentText(fetched.value))
  {
    if !Truthy(args.id) then Reply(DRAFT_ID_REQUIRED_TEXT, [])
    else if auth.Err? then Reply(ErrorText(auth.message, Some(DRAFT_NOT_FOUND_TEXT), SEND_ERROR_PREFIX), [])
    else
      var get := DraftCall(Get, "me/messages/" + args.id.value, NoBody);
      if fetched.Err? then Reply(ErrorText(fetched.message, Some(DRAFT_NOT_FOUND_TEXT), SEND_ERROR_PREFIX), [get])
      else
        var send := DraftCall(Post, "me/messages/" + args.id.value + "/send", EmptyObject);
        if posted.Err? then Reply(ErrorText(posted.message, Some(DRAFT_NOT_FOUND_TEXT), SEND_ERROR_PREFIX), [get, send])
        else Reply(SentText(fetched.value), [get, send])
  }

  /** The draft is never sent before it was fetched, and a failed fetch
      sends nothing. */
  lemma FetchBeforeSend(args: SendDraftArgs, auth: Remote<()>, fetched: Remote<Draft>, posted: Remote<()>)
    ensures var r := HandleSendDraft(args, auth, fetched, posted);
      forall i :: 0 <= i < |r.sent| && r.sent[i].verb == Post ==> i > 0 && r.sent[i - 1].verb == Get && fetched.Ok?
  {
  }
}
