/** The save-draft tool: creates a draft message, or updates an existing
    one with the fields given. */
module SaveDraft {
  import opened Js
  import opened Replies

  /** `{ emailAddress: { address } }`. */
  datatype Recipient = Recipient(address: string)

  /** `parseRecipients`: the comma-separated addresses, each trimmed; none
      for a missing or empty argument. */
  function ParseRecipients(emails: Option<string>): (r: seq<Recipient>)
    ensures !Truthy(emails) ==> r == []
    ensures Truthy(emails) ==> |r| == |Split(emails.value, ',')|
    ensures Truthy(emails) ==>
              forall i :: 0 <= i < |r| ==> r[i].address == Trim(Split(emails.value, ',')[i])
  {
    if !Truthy(emails) then []
    else
      var pieces := Split(emails.value, ',');
      seq(|pieces|, i requires 0 <= i < |pieces| => Recipient(Trim(pieces[i])))
  }

  /** One recipient per comma-separated piece, in order: the count is one
      more than the number of commas, and no address holds a comma or
      starts or ends with white space. */
  lemma RecipientsFromPieces(emails: string)
    requires emails != ""
    ensures |ParseRecipients(Some(emails))| == Occurrences(emails, ',') + 1
    ensures forall i :: 0 <= i < |ParseRecipients(Some(emails))| ==>
              var a := ParseRecipients(Some(emails))[i].address;
              && ',' !in a
              && (a == [] || (!IsSpace(a[0]) && !IsSpace(a[|a| - 1])))
  {
    SplitCount(emails, ',');
    var pieces := Split(emails, ',');
    var r := ParseRecipients(Some(emails));
    forall i | 0 <= i < |r| ensures ',' !in r[i].address {
      var lo, hi :| 0 <= lo <= hi <= |pieces[i]| && r[i].address == pieces[i][lo..hi]
                    && (forall m :: 0 <= m < lo ==> IsSpace(pieces[i][m]))
                    && (forall m :: hi <= m < |pieces[i]| ==> IsSpace(pieces[i][m]));
      assert ',' !in pieces[i];
    }
  }

  datatype SaveDraftArgs = SaveDraftArgs(
    id: Option<string>,
    to: Option<string>,
    cc: Option<string>,
    bcc: Option<string>,
    subject: Option<string>,
    body: Option<string>,
    contentType: Option<string>,
    importance: Option<string>)

  datatype ItemBody = ItemBody(contentType: string, content: string)

  /** The message resource; a None field is left out of the request. */
  datatype MessageObject = MessageObject(
    subject: Option<string>,
    body: Option<ItemBody>,
    toRecipients: Option<seq<Recipient>>,
    ccRecipients: Option<seq<Recipient>>,
    bccRecipients: Option<seq<Recipient>>,
    importance: Option<string>)

  datatype DraftRequest = DraftRequest(verb: Verb, endpoint: string, message: MessageObject)

  /** What the remote call returns about the saved draft. */
  datatype SavedDraft = SavedDraft(id: Option<string>, subject: Option<string>)

  const UPDATE_NEEDS_FIELD_TEXT :=
    "At least one field (to, cc, bcc, subject, body, contentType, importance) is required when updating a draft."
  const SAVE_ERROR_PREFIX := "Error saving draft: "
  /** The closing hint, written in pieces so that the verifier can read
      its first character. */
  const SEND_HINT :=
    "Use send-draft with this ID " + "to send the email, or find it " + "in your Drafts folder in Outlook."

  /** An update that names no field at all; every field, `contentType` and
      `importance` included, is tested as given, before the defaults. */
  predicate UpdateWithoutFields(args: SaveDraftArgs) {
    && Truthy(args.id)
    && !Truthy(args.to) && !Truthy(args.cc) && !Truthy(args.bcc)
    && !Truthy(args.subject) && !Truthy(args.body)
    && !Truthy(args.contentType) && !Truthy(args.importance)
  }

  /** A parameter default, which applies only to a missing argument. */
  function WithDefault(s: Option<string>, default: string): string {
    if s.Some? then s.value else default
  }

  /** A recipient field: the parsed list when it is not empty, otherwise
      left out. */
  predicate RecipientsField(field: Option<seq<Recipient>>, emails: Option<string>) {
    var parsed := ParseRecipients(emails);
    if |parsed| > 0 then field == Some(parsed) else field.None?
  }

  /** The message object described field by field: the subject as given,
      the body (of content type `text` unless another is given) exactly
      when a body is given, each recipient list only when it is not empty,
      and the importance (`normal` unless another is given). */
  predicate MessageFor(m: MessageObject, args: SaveDraftArgs) {
    && m.subject == args.subject
    && (m.body.Some? <==> args.body.Some?)
    && (args.body.Some? ==> m.body == Some(ItemBody(WithDefault(args.contentType, "text"), args.body.value)))
    && RecipientsField(m.toRecipients, args.to)
    && RecipientsField(m.ccRecipients, args.cc)
    && RecipientsField(m.bccRecipients, args.bcc)
    && m.importance == Some(WithDefault(args.importance, "normal"))
  }

  /** Builds the message object one conditional field at a time. */
  method BuildMessageObject(args: SaveDraftArgs) returns (m: MessageObject)
    ensures MessageFor(m, args)
  {
    var contentType := WithDefault(args.contentType, "text");
    var importance := WithDefault(args.importance, "normal");
    m := MessageObject(None, None, None, None, None, None);
    if args.subject.Some? {
      m := m.(subject := args.subject);
    }
    if args.body.Some? {
      m := m.(body := Some(ItemBody(contentType, args.body.value)));
    }
    var toRecipients := ParseRecipients(args.to);
    if |toRecipients| > 0 {
      m := m.(toRecipients := Some(toRecipients));
    }
    var ccRecipients := ParseRecipients(args.cc);
    if |ccRecipients| > 0 {
      m := m.(ccRecipients := Some(ccRecipients));
    }
    var bccRecipients := ParseRecipients(args.bcc);
    if |bccRecipients| > 0 {
      m := m.(bccRecipients := Some(bccRecipients));
    }
    m := m.(importance := Some(importance));
  }

  /** The "To/CC/BCC: n recipient(s)" line, or null for no recipients. */
  function CountLine(heading: string, n: nat): Option<string> {
    if n > 0 then Some(heading + ": " + NatToString(n) + " recipient(s)") else None
  }

  /** The reply lines before `filter(Boolean)`; None stands for null. */
  function DraftLines(action: string, saved: SavedDraft, toCount: nat, ccCount: nat, bccCount: nat): seq<Option<string>> {
    [ Some("Draft " + action + " successfully!"),
      Some(""),
      Some("Draft ID: " + Render(saved.id)),
      if Truthy(saved.subject) then Some("Subject: " + saved.subject.value) else None,
      CountLine("To", toCount),
      CountLine("CC", ccCount),
      CountLine("BCC", bccCount),
      Some(""),
      Some(SEND_HINT) ]
  }

  /** `filter(Boolean)` on lines: drops the nulls and the empty strings,
      keeping the rest in order. */
  function KeepTruthy(lines: seq<Option<string>>): (r: seq<string>)
    ensures forall i :: 0 <= i < |r| ==> r[i] != ""
    ensures forall s :: s in r <==> s != "" && Some(s) in lines
  {
    if lines == [] then []
    else if Truthy(lines[0]) then [lines[0].value] + KeepTruthy(lines[1..])
    else KeepTruthy(lines[1..])
  }

  /** `filter` keeps order and count: filtering a concatenation filters
      each part. */
  lemma {:induction false} KeepTruthyAppend(a: seq<Option<string>>, b: seq<Option<string>>)
    ensures KeepTruthy(a + b) == KeepTruthy(a) + KeepTruthy(b)
  {
    if a == [] {
      assert a + b == b;
    } else {
      assert (a + b)[0] == a[0] && (a + b)[1..] == a[1..] + b;
      KeepTruthyAppend(a[1..], b);
    }
  }

  /** A single line is kept, once, exactly when it is neither null nor empty. */
  lemma KeepTruthyOne(line: Option<string>)
    ensures KeepTruthy([line]) == if Truthy(line) then [line.value] else []
  {
  }

  /** A line whose first character no other line shares is shown exactly
      when its own entry holds it. */
  lemma {:induction false} OnlyLineStartingWith(all: seq<Option<string>>, p: nat, s: string)
    requires p < |all| && s != ""
    requires forall i :: 0 <= i < |all| && i != p && Truthy(all[i]) ==> all[i].value[0] != s[0]
    ensures s in KeepTruthy(all) <==> all[p] == Some(s)
  {
    if s in KeepTruthy(all) {
      assert Some(s) in all;
    }
    if all[p] == Some(s) {
      assert Some(s) in all;
    }
  }

  /** A count line equals the one rendered for `n` exactly when the count
      is `n` and `n` is not 0. */
  lemma CountLineFor(heading: string, n: nat, count: nat)
    ensures CountLine(heading, count) == Some(heading + ": " + NatToString(n) + " recipient(s)") <==>
              n > 0 && n == count
  {
    var line := heading + ": " + NatToString(n) + " recipient(s)";
    if CountLine(heading, count) == Some(line) {
      var other := heading + ": " + NatToString(count) + " recipient(s)";
      assert other == line;
      assert |NatToString(count)| == |NatToString(n)|;
      assert other[|heading| + 2..|other| - 13] == NatToString(count);
      assert line[|heading| + 2..|line| - 13] == NatToString(n);
      NatToStringInjective(n, count);
    }
  }

  /** Every shown line but the count line at `p` starts with a character
      other than `c`. */
  lemma {:induction false} OthersDoNotStartWith(action: string, saved: SavedDraft, toCount: nat, ccCount: nat, bccCount: nat,
                                                p: nat, c: char)
    requires (p, c) in {(4, 'T'), (5, 'C'), (6, 'B')}
    ensures var all := DraftLines(action, saved, toCount, ccCount, bccCount);
      forall i :: 0 <= i < |all| && i != p && Truthy(all[i]) ==> all[i].value[0] != c
  {
    var all := DraftLines(action, saved, toCount, ccCount, bccCount);
    forall i | 0 <= i < |all| && i != p && Truthy(all[i])
      ensures all[i].value[0] != c
    {
      if i == 0 || i == 2 {
        assert all[i].value[0] == 'D';
      } else if i == 3 {
        assert all[i].value[0] == 'S';
      } else if i == 4 {
        assert all[i].value[0] == 'T';
      } else if i == 5 {
        assert all[i].value[0] == 'C';
      } else if i == 6 {
        assert all[i].value[0] == 'B';
      } else if i == 8 {
        assert all[i] == Some(SEND_HINT) && SEND_HINT[0] == 'U';
      }
    }
  }

  /** A count line shows up, with the count itself, exactly when there are
      recipients of that kind. */
  lemma CountLineShown(action: string, saved: SavedDraft, toCount: nat, ccCount: nat, bccCount: nat,
                       heading: string, n: nat)
    requires heading in {"To", "CC", "BCC"}
    ensures var count := if heading == "To" then toCount else if heading == "CC" then ccCount else bccCount;
      heading + ": " + NatToString(n) + " recipient(s)" in KeepTruthy(DraftLines(action, saved, toCount, ccCount, bccCount)) <==>
        n > 0 && n == count
  {
    var all := DraftLines(action, saved, toCount, ccCount, bccCount);
    var line := heading + ": " + NatToString(n) + " recipient(s)";
    var p: nat := if heading == "To" then 4 else if heading == "CC" then 5 else 6;
    var count := if heading == "To" then toCount else if heading == "CC" then ccCount else bccCount;
    assert line[0] == heading[0];
    OthersDoNotStartWith(action, saved, toCount, ccCount, bccCount, p, heading[0]);
    OnlyLineStartingWith(all, p, line);
    assert all[p] == CountLine(heading, count);
    CountLineFor(heading, n, count);
  }

  /** `handleSaveDraft`. `auth` is the outcome of the token request and
      `saved` the outcome of the save request. */
  method HandleSaveDraft(args: SaveDraftArgs, auth: Remote<()>, saved: Remote<SavedDraft>)
    returns (reply: Reply<DraftRequest>)
    ensures UpdateWithoutFields(args) ==> reply == Reply(UPDATE_NEEDS_FIELD_TEXT, [])
    ensures !UpdateWithoutFields(args) && auth.Err? ==> reply == Reply(ErrorText(auth.message, None, SAVE_ERROR_PREFIX), [])
    ensures !UpdateWithoutFields(args) && auth.Ok? ==>
              && |reply.sent| == 1
              && (Truthy(args.id) ==> reply.sent[0].verb == Patch && reply.sent[0].endpoint == "me/messages/" + args.id.value)
              && (!Truthy(args.id) ==> reply.sent[0].verb == Post && reply.sent[0].endpoint == "me/messages")
              && MessageFor(reply.sent[0].message, args)
              && (saved.Err? ==> reply.text == ErrorText(saved.message, None, SAVE_ERROR_PREFIX))
              && (saved.Ok? ==>
                    reply.text == Join(KeepTruthy(DraftLines(if Truthy(args.id) then "updated" else "created", saved.value,
                                                             |ParseRecipients(args.to)|, |ParseRecipients(args.cc)|,
                                                             |ParseRecipients(args.bcc)|)), "\n"))
  {
    if UpdateWithoutFields(args) {
      return Reply(UPDATE_NEEDS_FIELD_TEXT, []);
    }
    if auth.Err? {
      return Reply(ErrorText(auth.message, None, SAVE_ERROR_PREFIX), []);
    }
    var messageObject := BuildMessageObject(args);
    var request, action;
    if Truthy(args.id) {
      request := DraftRequest(Patch, "me/messages/" + args.id.value, messageObject);
      action := "updated";
    } else {
      request := DraftRequest(Post, "me/messages", messageObject);
      action := "created";
    }
    if saved.Err? {
      return Reply(ErrorText(saved.message, None, SAVE_ERROR_PREFIX), [request]);
    }
    var toCount := |ParseRecipients(args.to)|;
    var ccCount := |ParseRecipients(args.cc)|;
    var bccCount := |ParseRecipients(args.bcc)|;
    var responseText := Join(KeepTruthy(DraftLines(action, saved.value, toCount, ccCount, bccCount)), "\n");
    reply := Reply(responseText, [request]);
  }
}
