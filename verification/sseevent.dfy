/** The events of the assistant's stream, as far as the aggregator looks into
    them (main.go:376-411). The JSON decoding itself is abstract: a `Parser`
    maps a payload to `Malformed` (decoding failed) or to the fields the loop
    reads. */
module SseEvent {
  import opened Outcomes

  /** Prefix that marks a data line; the payload starts right after it. */
  const DataPrefix: string := "data: "
  /** Payload that ends the stream without being decoded. */
  const DoneSentinel: string := "[DONE]"
  /** `object` value of an incremental-text event. */
  const DeltaObject: string := "thread.message.delta"
  /** `object` value of the event that closes the assistant's message. */
  const CompletedObject: string := "thread.message.completed"

  /** One entry of `delta.content`: either it is a map whose `text` is a map
      whose `value` is a string, or it is something else and is skipped. */
  datatype Part = TextPart(value: string) | NoText

  /** The decoded record: `object` when it is a string, and `delta.content`
      when `delta` is a map and `content` a list. */
  datatype Event = Event(obj: Option<string>, content: Option<seq<Part>>)

  datatype Payload = Malformed | Parsed(event: Event)

  /** `json.Unmarshal` into `map[string]interface{}`, left abstract. */
  type Parser = string -> Payload

  /** The text values of the content entries that carry one, in list order. */
  function TextsOf(parts: seq<Part>): (ts: seq<string>)
    ensures |ts| <= |parts|
  {
    if parts == [] then []
    else
      (match parts[0] case TextPart(v) => [v] case NoText => [])
      + TextsOf(parts[1..])
  }

  /** The text of a content list is the text of its pieces, in order. */
  lemma {:induction false} TextsOfAppend(a: seq<Part>, b: seq<Part>)
    ensures TextsOf(a + b) == TextsOf(a) + TextsOf(b)
  {
    if a == [] {
      assert a + b == b;
    } else {
      assert (a + b)[0] == a[0] && (a + b)[1..] == a[1..] + b;
      TextsOfAppend(a[1..], b);
    }
  }

  /** A single entry contributes its value if it has one and nothing otherwise. */
  lemma TextsOfOne(p: Part)
    ensures TextsOf([p]) == (if p.TextPart? then [p.value] else [])
  {
    assert [p][1..] == [];
  }

  /** Every text value in a content list is kept, and nothing is kept that
      no entry carried. */
  lemma {:induction false} TextsOfMembers(parts: seq<Part>, t: string)
    ensures t in TextsOf(parts) <==> TextPart(t) in parts
  {
    if parts != [] {
      TextsOfMembers(parts[1..], t);
      assert parts == [parts[0]] + parts[1..];
    }
  }
}
