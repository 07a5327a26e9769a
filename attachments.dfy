/** `attachments`: one `{content, filename, type, disposition, content_id}`
    entry per attachment child, in child order, the content base64-encoded. */
module AttachmentFiles {

  import opened Wrappers
  import opened Json
  import opened Swift
  import opened Sequences
  import Base64

  datatype AttachmentEntry = AttachmentEntry(
    content: string,
    filename: Option<string>,
    mime: string,
    disposition: string,
    contentId: string)

  predicate IsAttachment(c: Child) {
    c.kind == Attachment
  }

  function EntryOf(c: Child): AttachmentEntry {
    AttachmentEntry(Base64.Encode(c.body), c.filename, c.contentType, c.disposition, c.id)
  }

  /** The entries the `foreach` over the children builds. */
  function AttachmentEntries(children: seq<Child>): seq<AttachmentEntry> {
    Map(EntryOf, Filter(IsAttachment, children))
  }

  /** There is one entry per attachment child, in child order, carrying that
      child's filename, content type, disposition and id. */
  lemma EntriesInChildOrder(children: seq<Child>)
    ensures var idx := Selected(IsAttachment, children);
      && |AttachmentEntries(children)| == |idx|
      && StrictlyIncreasing(idx)
      && (forall k | 0 <= k < |idx| ::
            idx[k] < |children| && children[idx[k]].kind == Attachment
            && AttachmentEntries(children)[k].filename == children[idx[k]].filename
            && AttachmentEntries(children)[k].mime == children[idx[k]].contentType
            && AttachmentEntries(children)[k].disposition == children[idx[k]].disposition
            && AttachmentEntries(children)[k].contentId == children[idx[k]].id)
      && (forall i | 0 <= i < |children| && children[i].kind == Attachment :: i in idx)
  {
    FilterIsSelection(IsAttachment, children);
  }

  /** Each entry's content decodes back to its attachment's body. */
  lemma EntriesDecode(children: seq<Child>)
    requires forall i | 0 <= i < |children| && IsAttachment(children[i]) :: Base64.IsByteString(children[i].body)
    ensures var idx := Selected(IsAttachment, children);
      |idx| == |AttachmentEntries(children)| &&
      forall k | 0 <= k < |idx| ::
        idx[k] < |children| && Base64.Decode(AttachmentEntries(children)[k].content) == Some(children[idx[k]].body)
  {
    FilterIsSelection(IsAttachment, children);
    var idx := Selected(IsAttachment, children);
    forall k | 0 <= k < |idx|
      ensures Base64.Decode(AttachmentEntries(children)[k].content) == Some(children[idx[k]].body)
    {
      Base64.RoundTrip(children[idx[k]].body);
    }
  }

  /** The list is empty exactly when no child is an attachment. */
  lemma EntriesEmpty(children: seq<Child>)
    ensures AttachmentEntries(children) == [] <==>
      forall i | 0 <= i < |children| :: children[i].kind != Attachment
  {
    FilterEmpty(IsAttachment, children);
  }

  function EntryJson(e: AttachmentEntry): Value {
    Object(map[
      "content" := Str(e.content),
      "filename" := OptStr(e.filename),
      "type" := Str(e.mime),
      "disposition" := Str(e.disposition),
      "content_id" := Str(e.contentId)])
  }
}
