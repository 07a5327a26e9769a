/** `SendGridPayloadExtractor`: the object that builds the mail/send payload
    of one message, one key per builder step. `Payload` states what the whole
    chain of steps run by `extract` produces. */
module Extractor {

  import opened Wrappers
  import opened Json
  import opened Swift
  import opened Sequences
  import opened Addresses
  import opened Contents
  import opened HeaderFilter
  import opened AttachmentFiles

  /** `$payload[outer][inner] = v`: PHP creates the inner array when the
      outer key is missing. */
  function SetNested(payload: map<string, Value>, outer: string, inner: string, v: Value): (r: map<string, Value>)
    ensures r.Keys == payload.Keys + {outer}
    ensures r[outer].Object? && inner in r[outer].fields && r[outer].fields[inner] == v
    ensures outer in payload && payload[outer].Object? ==> r[outer].fields == payload[outer].fields[inner := v]
    ensures forall k | k in payload && k != outer :: r[k] == payload[k]
  {
    var existing := if outer in payload && payload[outer].Object? then payload[outer].fields else map[];
    payload[outer := Object(existing[inner := v])]
  }

  /** The `personalizations` object: `to` always, `cc` and `bcc` when the
      message has those arrays. */
  function Personalizations(m: Message): map<string, Value> {
    map["to" := MapMultipleAddress(m.to)]
    + (if m.cc.Some? then map["cc" := MapMultipleAddress(m.cc.value)] else map[])
    + (if m.bcc.Some? then map["bcc" := MapMultipleAddress(m.bcc.value)] else map[])
  }

  /** The payload's top-level keys: five always present, `reply_to` and
      `attachments` when they have a value. */
  function Assemble(personalizations: Value, from: Value, content: Value, subject: Value, headers: Value,
                    replyTo: Option<Value>, attachments: Option<Value>): (p: map<string, Value>)
    ensures p.Keys == {"personalizations", "from", "content", "subject", "headers"}
      + (if replyTo.Some? then {"reply_to"} else {})
      + (if attachments.Some? then {"attachments"} else {})
    ensures p["personalizations"] == personalizations && p["from"] == from && p["content"] == content
    ensures p["subject"] == subject && p["headers"] == headers
    ensures replyTo.Some? ==> p["reply_to"] == replyTo.value
    ensures attachments.Some? ==> p["attachments"] == attachments.value
  {
    map["personalizations" := personalizations, "from" := from, "content" := content,
        "subject" := subject, "headers" := headers]
      + (if replyTo.Some? then map["reply_to" := replyTo.value] else map[])
      + (if attachments.Some? then map["attachments" := attachments.value] else map[])
  }

  /** The payload `extract` builds from message `m` whose header set is
      `headers` when extraction starts. */
  function Payload(m: Message, headers: seq<Header>): map<string, Value> {
    var entries := AttachmentEntries(m.children);
    Assemble(
      Object(Personalizations(m)),
      MapSingleAddress(m.from),
      ContentJson(MessageParts(m.children, m.body)),
      OptStr(m.subject),
      HeadersJson(HeadersPayload(m.id, headers)),
      if m.replyTo.Some? then Some(MapSingleAddress(m.replyTo.value)) else None,
      if |entries| > 0 then Some(List(Map(EntryJson, entries))) else None)
  }

  /** The `to`, `cc` and `bcc` steps, run on an empty payload, leave exactly
      the `personalizations` object. */
  lemma RecipientSteps(m: Message)
    ensures var p1 := SetNested(map[], "personalizations", "to", MapMultipleAddress(m.to));
      var p2 := if m.cc.Some? then SetNested(p1, "personalizations", "cc", MapMultipleAddress(m.cc.value)) else p1;
      var p3 := if m.bcc.Some? then SetNested(p2, "personalizations", "bcc", MapMultipleAddress(m.bcc.value)) else p2;
      p3 == map["personalizations" := Object(Personalizations(m))]
  {
    var p1 := SetNested(map[], "personalizations", "to", MapMultipleAddress(m.to));
    var p2 := if m.cc.Some? then SetNested(p1, "personalizations", "cc", MapMultipleAddress(m.cc.value)) else p1;
    var p3 := if m.bcc.Some? then SetNested(p2, "personalizations", "bcc", MapMultipleAddress(m.bcc.value)) else p2;
    assert p3.Keys == {"personalizations"};
    assert p3["personalizations"].fields == Personalizations(m);
  }

  /** Writing the keys one after the other, as the steps do, gives the same
      map as `Payload`'s union of the always-present and the optional keys. */
  lemma KeyUpdates(pers: Value, from: Value, content: Value, replyTo: Option<Value>,
                   subject: Value, headers: Value, attachments: Option<Value>)
    ensures var p4 := map["personalizations" := pers]["from" := from]["content" := content];
      var p6 := if replyTo.Some? then p4["reply_to" := replyTo.value] else p4;
      var p8 := p6["subject" := subject]["headers" := headers];
      var p9 := if attachments.Some? then p8["attachments" := attachments.value] else p8;
      p9 == Assemble(pers, from, content, subject, headers, replyTo, attachments)
  {
  }

  /** The keys `extract` always sets, and the two it sets only sometimes:
      `reply_to` when `getReplyTo()` is an array and `attachments` when some
      child is an attachment. */
  lemma PayloadKeys(m: Message, headers: seq<Header>)
    ensures Payload(m, headers).Keys ==
      {"personalizations", "from", "content", "subject", "headers"}
      + (if m.replyTo.Some? then {"reply_to"} else {})
      + (if exists i | 0 <= i < |m.children| :: m.children[i].kind == Attachment then {"attachments"} else {})
  {
    EntriesEmpty(m.children);
  }

  lemma PersonalizationsOfPayload(m: Message, headers: seq<Header>)
    ensures "personalizations" in Payload(m, headers)
    ensures Payload(m, headers)["personalizations"] == Object(Personalizations(m))
  {
  }

  /** `personalizations` always holds `to`; it holds `cc` when `getCc()` is an
      array and `bcc` when `getBcc()` is not `null`, each the mapped list. */
  lemma PersonalizationKeys(m: Message)
    ensures Personalizations(m).Keys == {"to"} + (if m.cc.Some? then {"cc"} else {}) + (if m.bcc.Some? then {"bcc"} else {})
    ensures Personalizations(m)["to"] == MapMultipleAddress(m.to)
    ensures m.cc.Some? ==> Personalizations(m)["cc"] == MapMultipleAddress(m.cc.value)
    ensures m.bcc.Some? ==> Personalizations(m)["bcc"] == MapMultipleAddress(m.bcc.value)
  {
  }

  /** `content` is `null` exactly when the message has no body and no text
      part among its children. */
  lemma PayloadContentNull(m: Message, headers: seq<Header>)
    ensures Payload(m, headers)["content"] == Null <==>
      m.body.None? && forall i | 0 <= i < |m.children| :: !IsTextPart(m.children[i])
  {
    MessagePartsNull(m.children, m.body);
  }

  /** `headers` holds `X-Message-ID` with the message id and no reserved
      name. */
  lemma PayloadHeaders(m: Message, headers: seq<Header>)
    ensures var h := Payload(m, headers)["headers"];
      && h.Object?
      && MessageIdHeader in h.fields && h.fields[MessageIdHeader] == Str(m.id)
      && forall k | k in h.fields :: !IsReserved(k)
  {
    MessageIdPresent(m.id, headers);
    NoReservedKeys(m.id, headers);
  }

  class SendGridPayloadExtractor {
    const message: Message
    var payload: map<string, Value>

    constructor (message: Message)
      ensures this.message == message && payload == map[]
    {
      this.message := message;
      payload := map[];
    }

    /** `get()` and `toArray()`: the payload built so far. */
    function ToArray(): (r: map<string, Value>)
      reads this
      ensures r == payload
    {
      payload
    }

    method From()
      modifies this
      ensures payload == old(payload)["from" := MapSingleAddress(message.from)]
    {
      payload := payload["from" := MapSingleAddress(message.from)];
    }

    method To()
      modifies this
      ensures payload == SetNested(old(payload), "personalizations", "to", MapMultipleAddress(message.to))
    {
      payload := SetNested(payload, "personalizations", "to", MapMultipleAddress(message.to));
    }

    method Cc()
      modifies this
      ensures payload == if message.cc.Some?
        then SetNested(old(payload), "personalizations", "cc", MapMultipleAddress(message.cc.value))
        else old(payload)
    {
      if message.cc.Some? {
        payload := SetNested(payload, "personalizations", "cc", MapMultipleAddress(message.cc.value));
      }
    }

    method Bcc()
      modifies this
      ensures payload == if message.bcc.Some?
        then SetNested(old(payload), "personalizations", "bcc", MapMultipleAddress(message.bcc.value))
        else old(payload)
    {
      if message.bcc.Some? {
        payload := SetNested(payload, "personalizations", "bcc", MapMultipleAddress(message.bcc.value));
      }
    }

    method ReplyTo()
      modifies this
      ensures payload == if message.replyTo.Some?
        then old(payload)["reply_to" := MapSingleAddress(message.replyTo.value)]
        else old(payload)
    {
      if message.replyTo.Some? {
        payload := payload["reply_to" := MapSingleAddress(message.replyTo.value)];
      }
    }

    method Subject()
      modifies this
      ensures payload == old(payload)["subject" := OptStr(message.subject)]
    {
      payload := payload["subject" := OptStr(message.subject)];
    }

    method Body()
      modifies this
      ensures payload == old(payload)["content" := ContentJson(MessageParts(message.children, message.body))]
    {
      var parts := GetMessageParts();
      payload := payload["content" := ContentJson(parts)];
    }

    /** `getMessageParts`: collect the text parts, return `null` when there is
        nothing to send, add the body as HTML when needed, then sort. */
    method GetMessageParts() returns (parts: Option<seq<ContentPart>>)
      ensures parts == MessageParts(message.children, message.body)
    {
      var children := message.children;
      var contents: seq<ContentPart> := [];
      for i := 0 to |children|
        invariant contents == CollectParts(children[..i])
      {
        var part := children[i];
        if part.kind == MimePart && part.contentType in ValidMimes {
          contents := contents + [ContentPart(part.contentType, Some(part.body))];
        }
        assert children[..i + 1][..i] == children[..i];
      }
      assert children[..|children|] == children;
      if message.body.None? && |contents| == 0 {
        return None;
      }
      if HasNotHtmlPart(contents) {
        contents := contents + [ContentPart(TextHtml, message.body)];
      }
      contents := PlainFirst(contents);
      return Some(contents);
    }

    /** `headers`: start the object with `X-Message-ID`, add that header to
        the message, then copy every admitted header of the message. */
    method Headers()
      modifies this, message
      ensures message.headers == old(message.headers) + [Header(MessageIdHeader, Text(message.id))]
      ensures payload == old(payload)["headers" := HeadersJson(HeadersPayload(message.id, old(message.headers)))]
    {
      var start := map[MessageIdHeader := message.id];
      var headers := start;
      message.AddTextHeader(MessageIdHeader, message.id);
      var all := message.headers;
      for i := 0 to |all|
        invariant headers == HeaderMap(start, all[..i])
      {
        var header := all[i];
        if header.body.Text? && ToLower(header.name) !in ReservedHeaders {
          headers := headers[header.name := header.body.text];
        }
        assert all[..i + 1][..i] == all[..i];
      }
      assert all[..|all|] == all;
      payload := payload["headers" := HeadersJson(headers)];
    }

    /** `attachments`: one entry per attachment child; the key is set only
        when there is at least one. */
    method Attachments()
      modifies this
      ensures var entries := AttachmentEntries(message.children);
        payload == if |entries| > 0
          then old(payload)["attachments" := List(Map(EntryJson, entries))]
          else old(payload)
    {
      var children := message.children;
      var entries: seq<AttachmentEntry> := [];
      for i := 0 to |children|
        invariant entries == AttachmentEntries(children[..i])
      {
        var child := children[i];
        if child.kind == Attachment {
          entries := entries + [AttachmentEntry(Base64.Encode(child.body), child.filename,
            child.contentType, child.disposition, child.id)];
        }
        assert children[..i + 1][..i] == children[..i];
      }
      assert children[..|children|] == children;
      if |entries| > 0 {
        payload := payload["attachments" := List(Map(EntryJson, entries))];
      }
    }

    /** `extract`: run every builder step, in the source's order, on a new
        extractor. */
    static method Extract(message: Message) returns (e: SendGridPayloadExtractor)
      modifies message
      ensures fresh(e) && e.message == message
      ensures message.headers == old(message.headers) + [Header(MessageIdHeader, Text(message.id))]
      ensures e.ToArray() == Payload(message, old(message.headers))
    {
      e := new SendGridPayloadExtractor(message);
      e.To();
      e.Cc();
      e.Bcc();
      RecipientSteps(message);
      e.From();
      e.Body();
      e.ReplyTo();
      e.Subject();
      e.Headers();
      e.Attachments();
      var entries := AttachmentEntries(message.children);
      KeyUpdates(Object(Personalizations(message)), MapSingleAddress(message.from),
        ContentJson(MessageParts(message.children, message.body)),
        if message.replyTo.Some? then Some(MapSingleAddress(message.replyTo.value)) else None,
        OptStr(message.subject), HeadersJson(HeadersPayload(message.id, old(message.headers))),
        if |entries| > 0 then Some(List(Map(EntryJson, entries))) else None);
    }
  }
}
