/** `getMessageParts` and `hasNotHtmlPart`: the `content` list of the
    payload. The text parts among the message's children are collected, the
    main body is added as an HTML part when no HTML part was collected, and
    the list is ordered plain text first. */
module Contents {

  import opened Wrappers
  import opened Json
  import opened Swift
  import opened Sequences

  const TextPlain: string := "text/plain"
  const TextHtml: string := "text/html"
  const AmpHtml: string := "text/x-amp-html"

  /** The content types a collected part may have. */
  const ValidMimes: seq<string> := [TextPlain, TextHtml]

  /** One `{type, value}` entry of the content list. */
  datatype ContentPart = ContentPart(mime: string, value: Option<string>)

  /** A child that `getMessageParts` collects: a MIME part of a valid type. */
  predicate IsTextPart(c: Child) {
    c.kind == MimePart && c.contentType in ValidMimes
  }

  function PartOf(c: Child): ContentPart {
    ContentPart(c.contentType, Some(c.body))
  }

  /** The entries the `foreach` over the children collects. */
  function CollectParts(children: seq<Child>): seq<ContentPart> {
    Map(PartOf, Filter(IsTextPart, children))
  }

  predicate IsHtml(p: ContentPart) {
    p.mime == TextHtml
  }

  predicate IsPlain(p: ContentPart) {
    p.mime == TextPlain
  }

  predicate IsNotPlain(p: ContentPart) {
    p.mime != TextPlain
  }

  /** `hasNotHtmlPart`: `array_filter` for HTML entries comes back empty,
      that is, no entry has type `text/html`. */
  function HasNotHtmlPart(parts: seq<ContentPart>): (r: bool)
    ensures r <==> forall i | 0 <= i < |parts| :: parts[i].mime != TextHtml
  {
    FilterEmpty(IsHtml, parts);
    Filter(IsHtml, parts) == []
  }

  /** The comparison closure handed to `usort`. It never answers 0, and it
      answers -1 for two plain parts whichever comes first. */
  function Comparator(first: ContentPart, second: ContentPart): (r: int)
    ensures r == -1 || r == 1
    ensures IsPlain(first) ==> r == -1
    ensures !IsPlain(first) && second.mime != AmpHtml ==> r == 1
  {
    if first.mime == TextPlain then -1
    else if first.mime == TextHtml && second.mime == AmpHtml then -1
    else 1
  }

  /** The order `usort` leaves the entries in, taken as a stable partition:
      the plain text entries in their order, then the others in theirs. */
  function PlainFirst(parts: seq<ContentPart>): (r: seq<ContentPart>)
    ensures multiset(r) == multiset(parts)
    ensures forall i, j | 0 <= i < j < |r| :: IsPlain(r[j]) ==> IsPlain(r[i])
  {
    FilterPartition(IsPlain, IsNotPlain, parts);
    Filter(IsPlain, parts) + Filter(IsNotPlain, parts)
  }

  /** The sort is stable: plain entries keep their relative order, and so
      do the others. */
  lemma PlainFirstStable(parts: seq<ContentPart>)
    ensures Filter(IsPlain, PlainFirst(parts)) == Filter(IsPlain, parts)
    ensures Filter(IsNotPlain, PlainFirst(parts)) == Filter(IsNotPlain, parts)
  {
    var plain, other := Filter(IsPlain, parts), Filter(IsNotPlain, parts);
    FilterConcat(IsPlain, plain, other);
    FilterConcat(IsNotPlain, plain, other);
    FilterAll(IsPlain, plain);
    FilterAll(IsNotPlain, other);
    FilterEmpty(IsPlain, other);
    FilterEmpty(IsNotPlain, plain);
  }

  /** The collected entries with the main body appended as the HTML part
      when none was collected. */
  function WithHtml(collected: seq<ContentPart>, body: Option<string>): seq<ContentPart> {
    if HasNotHtmlPart(collected) then collected + [ContentPart(TextHtml, body)] else collected
  }

  /** `getMessageParts`: `null` when there is neither a body nor a collected
      part, otherwise the completed and ordered list. */
  function MessageParts(children: seq<Child>, body: Option<string>): Option<seq<ContentPart>> {
    var collected := CollectParts(children);
    if body.None? && |collected| == 0 then None
    else Some(PlainFirst(WithHtml(collected, body)))
  }

  /** The collected entries are the valid text parts among the children,
      each once and in child order. */
  lemma CollectedInChildOrder(children: seq<Child>)
    ensures var idx := Selected(IsTextPart, children);
      && |CollectParts(children)| == |idx|
      && StrictlyIncreasing(idx)
      && (forall k | 0 <= k < |idx| ::
            idx[k] < |children| && IsTextPart(children[idx[k]])
            && CollectParts(children)[k] == PartOf(children[idx[k]]))
      && (forall i | 0 <= i < |children| && IsTextPart(children[i]) :: i in idx)
  {
    FilterIsSelection(IsTextPart, children);
  }

  /** Every collected entry, and so every entry of the content list, has
      type `text/plain` or `text/html`. */
  lemma MessagePartsMimes(children: seq<Child>, body: Option<string>)
    ensures MessageParts(children, body).Some? ==>
      forall i | 0 <= i < |MessageParts(children, body).value| ::
        MessageParts(children, body).value[i].mime in ValidMimes
  {
    var collected := CollectParts(children);
    var w := WithHtml(collected, body);
    assert forall p | p in w :: p.mime in ValidMimes;
    if MessageParts(children, body).Some? {
      var r := MessageParts(children, body).value;
      forall i | 0 <= i < |r| ensures r[i].mime in ValidMimes {
        assert r[i] in multiset(w);
      }
    }
  }

  /** The content is `null` exactly when the message has no body and no
      child is a text part. */
  lemma MessagePartsNull(children: seq<Child>, body: Option<string>)
    ensures MessageParts(children, body).None? <==>
      body.None? && forall i | 0 <= i < |children| :: !IsTextPart(children[i])
  {
    FilterEmpty(IsTextPart, children);
  }

  /** A content list always holds an HTML entry. */
  lemma MessagePartsHasHtml(children: seq<Child>, body: Option<string>)
    ensures MessageParts(children, body).Some? ==>
      exists i | 0 <= i < |MessageParts(children, body).value| ::
        MessageParts(children, body).value[i].mime == TextHtml
  {
    var collected := CollectParts(children);
    var w := WithHtml(collected, body);
    if MessageParts(children, body).Some? {
      var r := MessageParts(children, body).value;
      var k :| 0 <= k < |w| && w[k].mime == TextHtml;
      assert w[k] in multiset(r);
      var i :| 0 <= i < |r| && r[i] == w[k];
    }
  }

  /** The content list is a reordering of the collected entries plus, when
      none of them is HTML, one entry holding the main body. */
  lemma MessagePartsPermutation(children: seq<Child>, body: Option<string>)
    ensures var collected := CollectParts(children);
      MessageParts(children, body).Some? ==>
        multiset(MessageParts(children, body).value) ==
          multiset(collected) + (if HasNotHtmlPart(collected) then multiset{ContentPart(TextHtml, body)} else multiset{})
  {
  }

  /** When no HTML part was collected, the content list holds exactly one
      HTML entry, and its value is the main body (`null` if the message has
      none). */
  lemma MessagePartsAppendsBody(children: seq<Child>, body: Option<string>)
    requires HasNotHtmlPart(CollectParts(children))
    ensures MessageParts(children, body).Some? ==>
      multiset(Filter(IsHtml, MessageParts(children, body).value)) == multiset{ContentPart(TextHtml, body)}
  {
    var collected := CollectParts(children);
    var h := ContentPart(TextHtml, body);
    if MessageParts(children, body).Some? {
      var r := MessageParts(children, body).value;
      forall x ensures multiset(Filter(IsHtml, r))[x] == multiset{h}[x] {
        FilterCount(IsHtml, r, x);
        if IsHtml(x) && x != h {
          assert x !in collected;
        }
      }
    }
  }

  /** After sorting, every `text/plain` entry comes before every other one. */
  lemma MessagePartsPlainFirst(children: seq<Child>, body: Option<string>)
    ensures MessageParts(children, body).Some? ==>
      var r := MessageParts(children, body).value;
      forall i, j | 0 <= i < j < |r| :: r[j].mime == TextPlain ==> r[i].mime == TextPlain
  {
  }

  /** The order agrees with the comparator: no two entries are left in an
      order that the comparator reverses from both sides. Its
      `text/x-amp-html` branch never applies, since no such entry is
      collected. */
  lemma MessagePartsRespectComparator(children: seq<Child>, body: Option<string>)
    ensures MessageParts(children, body).Some? ==>
      var r := MessageParts(children, body).value;
      && (forall i | 0 <= i < |r| :: r[i].mime != AmpHtml)
      && (forall i, j | 0 <= i < j < |r| :: !(Comparator(r[j], r[i]) < 0 && Comparator(r[i], r[j]) > 0))
  {
    MessagePartsMimes(children, body);
  }

  function PartJson(p: ContentPart): Value {
    Object(map["type" := Str(p.mime), "value" := OptStr(p.value)])
  }

  /** The `content` value of the payload. */
  function ContentJson(parts: Option<seq<ContentPart>>): (v: Value)
    ensures v.Null? <==> parts.None?
    ensures parts.Some? ==> v.List? && |v.items| == |parts.value|
  {
    match parts
    case None => Null
    case Some(ps) => List(Map(PartJson, ps))
  }
}
