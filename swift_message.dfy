/** The parts of a Swift Mailer message that the extractor reads. Address
    lists are PHP arrays keyed by email address, kept here as sequences of
    (email, name) pairs in array order. The message is an object because the
    extractor adds a header to it; everything else about it is fixed for the
    life of the extraction. */
module Swift {

  import opened Wrappers

  /** One entry of an address array: the key is the email, the value the
      display name or `null`. */
  datatype Address = Address(email: string, name: Option<string>)

  /** A header's field body model: a plain string for text headers, or one of
      the structured models (dates, mailbox lists, id lists, ...). */
  datatype HeaderBody = Text(text: string) | Structured

  datatype Header = Header(name: string, body: HeaderBody)

  /** What a child entity is, as the extractor's `instanceof` checks see it. */
  datatype ChildKind = MimePart | Attachment | OtherEntity

  /** A child entity of the message: an alternative body part, an attachment,
      or something else (an embedded file). */
  datatype Child = Child(
    kind: ChildKind,
    contentType: string,
    body: string,
    filename: Option<string>,
    disposition: string,
    id: string)

  class Message {
    const from: seq<Address>
    const to: seq<Address>
    /** `getCc()`, `getBcc()` and `getReplyTo()` return an array or `null`. */
    const cc: Option<seq<Address>>
    const bcc: Option<seq<Address>>
    const replyTo: Option<seq<Address>>
    const subject: Option<string>
    const body: Option<string>
    const id: string
    const children: seq<Child>
    /** The header set, in the order `getAll()` lists it. */
    var headers: seq<Header>

    constructor (
      from: seq<Address>, to: seq<Address>, cc: Option<seq<Address>>, bcc: Option<seq<Address>>,
      replyTo: Option<seq<Address>>, subject: Option<string>, body: Option<string>, id: string,
      children: seq<Child>, headers: seq<Header>)
      ensures this.from == from && this.to == to && this.cc == cc && this.bcc == bcc
      ensures this.replyTo == replyTo && this.subject == subject && this.body == body
      ensures this.id == id && this.children == children && this.headers == headers
    {
      this.from, this.to, this.cc, this.bcc := from, to, cc, bcc;
      this.replyTo, this.subject, this.body := replyTo, subject, body;
      this.id, this.children, this.headers := id, children, headers;
    }

    /** `getHeaders()->addTextHeader(name, value)`: the new header is listed
        after all existing ones. */
    method AddTextHeader(name: string, value: string)
      modifies this
      ensures headers == old(headers) + [Header(name, Text(value))]
    {
      headers := headers + [Header(name, Text(value))];
    }
  }
}
