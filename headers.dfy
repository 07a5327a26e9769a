/** `headers` and the reserved header list: the `headers` object of the
    payload. It starts with `X-Message-ID`, then takes, in header-set order,
    every header whose body is a plain string and whose lower-cased name is
    not reserved by SendGrid; a later header overwrites an earlier one of the
    same name. */
module HeaderFilter {

  import opened Swift
  import Json

  const MessageIdHeader: string := "X-Message-ID"

  /** Header names SendGrid does not accept in `headers`, lower case. */
  const ReservedHeaders: seq<string> := [
    "x-sg-id", "x-sg-eid", "received", "dkim-signature", "content-type", "content-transfer-encoding",
    "to", "from", "subject", "reply-to", "cc", "bcc"
  ]

  /** PHP's `strtolower` on one byte: ASCII letters only. */
  function LowerChar(c: char): char {
    if 'A' <= c <= 'Z' then (c as int - 'A' as int + 'a' as int) as char else c
  }

  function ToLower(s: string): (r: string)
    ensures |r| == |s|
    ensures forall i | 0 <= i < |s| :: r[i] == LowerChar(s[i])
  {
    seq(|s|, i requires 0 <= i < |s| => LowerChar(s[i]))
  }

  predicate IsReserved(name: string) {
    ToLower(name) in ReservedHeaders
  }

  /** A header the loop copies into the payload. */
  predicate Admitted(h: Header) {
    h.body.Text? && !IsReserved(h.name)
  }

  /** The `headers` map after the loop has seen `hs`, starting from `start`. */
  function HeaderMap(start: map<string, string>, hs: seq<Header>): map<string, string>
    decreases |hs|
  {
    if |hs| == 0 then start
    else
      var m := HeaderMap(start, hs[..|hs| - 1]);
      var h := hs[|hs| - 1];
      if Admitted(h) then m[h.name := h.body.text] else m
  }

  /** The `headers` object built from a message with id `id` and header set
      `hs` as it was before `headers()` added its own `X-Message-ID`. */
  function HeadersPayload(id: string, hs: seq<Header>): map<string, string> {
    HeaderMap(map[MessageIdHeader := id], hs + [Header(MessageIdHeader, Text(id))])
  }

  /** A name is a key of the map exactly when it was a key at the start or
      the name of an admitted header. */
  lemma {:induction false} HeaderMapKeys(start: map<string, string>, hs: seq<Header>, k: string)
    ensures k in HeaderMap(start, hs) <==>
      k in start || exists i | 0 <= i < |hs| :: Admitted(hs[i]) && hs[i].name == k
    decreases |hs|
  {
    if |hs| > 0 {
      var init := hs[..|hs| - 1];
      HeaderMapKeys(start, init, k);
      if exists i | 0 <= i < |hs| :: Admitted(hs[i]) && hs[i].name == k {
        var i :| 0 <= i < |hs| && Admitted(hs[i]) && hs[i].name == k;
        if i < |hs| - 1 {
          assert init[i] == hs[i];
        }
      }
    }
  }

  /** The last admitted header of a name decides that name's value. */
  lemma {:induction false} HeaderMapLastWins(start: map<string, string>, hs: seq<Header>, i: nat)
    requires i < |hs| && Admitted(hs[i])
    requires forall j | i < j < |hs| :: !(Admitted(hs[j]) && hs[j].name == hs[i].name)
    ensures hs[i].name in HeaderMap(start, hs)
    ensures HeaderMap(start, hs)[hs[i].name] == hs[i].body.text
    decreases |hs|
  {
    if i < |hs| - 1 {
      var init := hs[..|hs| - 1];
      assert init[i] == hs[i];
      HeaderMapLastWins(start, init, i);
    }
  }

  /** A name no admitted header carries keeps its starting value. */
  lemma {:induction false} HeaderMapKeepsStart(start: map<string, string>, hs: seq<Header>, k: string)
    requires k in start
    requires forall j | 0 <= j < |hs| :: !(Admitted(hs[j]) && hs[j].name == k)
    ensures k in HeaderMap(start, hs) && HeaderMap(start, hs)[k] == start[k]
    decreases |hs|
  {
    if |hs| > 0 {
      var init := hs[..|hs| - 1];
      assert forall j | 0 <= j < |init| :: init[j] == hs[j];
      HeaderMapKeepsStart(start, init, k);
    }
  }

  /** Every value in the map is a starting value or the body of an admitted
      header of that name. */
  lemma {:induction false} HeaderMapValues(start: map<string, string>, hs: seq<Header>, k: string)
    requires k in HeaderMap(start, hs)
    ensures (k in start && HeaderMap(start, hs)[k] == start[k]) ||
      exists i | 0 <= i < |hs| :: Admitted(hs[i]) && hs[i] == Header(k, Text(HeaderMap(start, hs)[k]))
    decreases |hs|
  {
    if |hs| > 0 {
      var init := hs[..|hs| - 1];
      var h := hs[|hs| - 1];
      if !(Admitted(h) && h.name == k) {
        HeaderMapValues(start, init, k);
        if !(k in start && HeaderMap(start, init)[k] == start[k]) {
          var i :| 0 <= i < |init| && Admitted(init[i]) && init[i] == Header(k, Text(HeaderMap(start, init)[k]));
          assert hs[i] == init[i];
        }
      }
    }
  }

  /** The name `headers()` adds is not a reserved one. */
  lemma MessageIdNotReserved()
    ensures !IsReserved(MessageIdHeader)
  {
    var lower := ToLower(MessageIdHeader);
    assert lower[0] == 'x' && lower[2] == 'm';
    assert lower == "x-message-id";
  }

  /** `X-Message-ID` is always present and holds the message id. */
  lemma MessageIdPresent(id: string, hs: seq<Header>)
    ensures MessageIdHeader in HeadersPayload(id, hs)
    ensures HeadersPayload(id, hs)[MessageIdHeader] == id
  {
    var all := hs + [Header(MessageIdHeader, Text(id))];
    MessageIdNotReserved();
    HeaderMapLastWins(map[MessageIdHeader := id], all, |hs|);
  }

  /** No key of the `headers` object is a reserved name, in any case. */
  lemma NoReservedKeys(id: string, hs: seq<Header>)
    ensures forall k | k in HeadersPayload(id, hs) :: !IsReserved(k)
  {
    var all := hs + [Header(MessageIdHeader, Text(id))];
    MessageIdNotReserved();
    forall k | k in HeadersPayload(id, hs) ensures !IsReserved(k) {
      HeaderMapKeys(map[MessageIdHeader := id], all, k);
    }
  }

  /** Besides `X-Message-ID`, every entry comes from a header of the message
      with a string body and that very name and value. */
  lemma OnlyStringHeaders(id: string, hs: seq<Header>)
    ensures forall k | k in HeadersPayload(id, hs) && k != MessageIdHeader ::
      exists i | 0 <= i < |hs| :: hs[i] == Header(k, Text(HeadersPayload(id, hs)[k]))
  {
    var all := hs + [Header(MessageIdHeader, Text(id))];
    forall k | k in HeadersPayload(id, hs) && k != MessageIdHeader
      ensures exists i | 0 <= i < |hs| :: hs[i] == Header(k, Text(HeadersPayload(id, hs)[k]))
    {
      HeaderMapValues(map[MessageIdHeader := id], all, k);
      var i :| 0 <= i < |all| && Admitted(all[i]) && all[i] == Header(k, Text(HeadersPayload(id, hs)[k]));
      assert i < |hs| && hs[i] == all[i];
    }
  }

  /** Every string-bodied, unreserved header of the message is present, with
      the body of the last such header of its name. */
  lemma AdmittedHeadersPresent(id: string, hs: seq<Header>, i: nat)
    requires i < |hs| && Admitted(hs[i]) && hs[i].name != MessageIdHeader
    requires forall j | i < j < |hs| :: !(Admitted(hs[j]) && hs[j].name == hs[i].name)
    ensures hs[i].name in HeadersPayload(id, hs)
    ensures HeadersPayload(id, hs)[hs[i].name] == hs[i].body.text
  {
    HeaderMapLastWins(map[MessageIdHeader := id], hs + [Header(MessageIdHeader, Text(id))], i);
  }

  /** The `headers` object of the payload: every value is a string. */
  function HeadersJson(m: map<string, string>): (v: Json.Value)
    ensures v.Object? && v.fields.Keys == m.Keys
    ensures forall k | k in m :: v.fields[k] == Json.Str(m[k])
  {
    Json.Object(map k | k in m :: Json.Str(m[k]))
  }
}
