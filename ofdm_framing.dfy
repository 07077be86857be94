/**
 * The framing layers of the protocol stack: layers 5 to 2 each put an ASCII
 * tag ending in the delimiter `|` in front of the payload, and each removal
 * keeps what follows the first `|`, whatever tag precedes it.
 */
module Framing {

  /** A byte of a Python `bytes` value. */
  type byte = x: int | 0 <= x < 256

  /** The delimiter byte `|`. */
  const Delimiter: byte := 124

  /** The bytes of an ASCII string. */
  function Ascii(s: string): (r: seq<byte>)
    requires forall i :: 0 <= i < |s| ==> s[i] as int < 256
    ensures |r| == |s|
    ensures forall i :: 0 <= i < |s| ==> r[i] == s[i] as int
  {
    seq(|s|, i requires 0 <= i < |s| => s[i] as int)
  }

  /** The framing layers: session (L5), transport (L4), network (L3) and link (L2). */
  datatype Layer = Session | Transport | Network | Link

  /** The header each layer puts in front of its payload. */
  function Tag(layer: Layer): seq<byte>
  {
    match layer
    case Session => Ascii("SESSION|")
    case Transport => Ascii("TCP|")
    case Network => Ascii("IP|")
    case Link => Ascii("MAC|")
  }

  /** Every tag ends in the delimiter and holds no other delimiter. */
  lemma TagShape(layer: Layer)
    ensures |Tag(layer)| > 0 && Tag(layer)[|Tag(layer)| - 1] == Delimiter
    ensures Delimiter !in Tag(layer)[..|Tag(layer)| - 1]
  {
    var t := Tag(layer);
    forall i | 0 <= i < |t| - 1
      ensures t[i] != Delimiter
    {
      assert t[i] != 124;
    }
  }

  /** `L5`, `L4`, `L3` and `L2`: the layer's tag followed by the payload. */
  function AddHeader(layer: Layer, data: seq<byte>): (r: seq<byte>)
    ensures |r| == |Tag(layer)| + |data|
    ensures r[..|Tag(layer)|] == Tag(layer) && r[|Tag(layer)|..] == data
  {
    Tag(layer) + data
  }

  /**
   * `bytes.split(sep, 1)`: the whole input when sep does not occur in it,
   * otherwise the parts before and after its first occurrence.
   */
  function SplitOnce(data: seq<byte>, sep: byte): (parts: seq<seq<byte>>)
    ensures sep !in data ==> parts == [data]
    ensures sep in data ==>
      && |parts| == 2
      && data == parts[0] + [sep] + parts[1]
      && sep !in parts[0]
  {
    if |data| == 0 then [data]
    else if data[0] == sep then [[], data[1..]]
    else
      var rest := SplitOnce(data[1..], sep);
      assert data == [data[0]] + data[1..];
      [[data[0]] + rest[0]] + rest[1..]
  }

  /** The first occurrence of the separator is where the split happens. */
  lemma {:induction false} SplitAtFirst(before: seq<byte>, sep: byte, after: seq<byte>)
    requires sep !in before
    ensures SplitOnce(before + [sep] + after, sep) == [before, after]
  {
    var data := before + [sep] + after;
    if |before| > 0 {
      assert data[1..] == before[1..] + [sep] + after;
      SplitAtFirst(before[1..], sep, after);
      assert [data[0]] + before[1..] == before;
    } else {
      assert data[1..] == after;
    }
  }

  datatype Error = IndexError

  datatype Result<T> = Ok(value: T) | Err(error: Error)

  /**
   * `L5_remove`, `L4_remove`, `L3_remove` and `L2_remove` (the four are the
   * same): element 1 of `data.split(b"|", 1)`, which raises `IndexError`
   * when the input holds no `|`.
   */
  function RemoveHeader(data: seq<byte>): (r: Result<seq<byte>>)
    ensures r.Ok? <==> Delimiter in data
    ensures r.Ok? ==>
      var cut := |data| - |r.value| - 1;
      && 0 <= cut && data[cut] == Delimiter && Delimiter !in data[..cut]
      && data[cut + 1..] == r.value
  {
    var parts := SplitOnce(data, Delimiter);
    if |parts| > 1 then
      assert data[|parts[0]| + 1..] == parts[1];
      assert data[..|parts[0]|] == parts[0];
      Ok(parts[1])
    else Err(IndexError)
  }

  /** Removal keeps exactly what follows a delimiter-free prefix and its delimiter: the tag is never checked. */
  lemma RemoveAnyHeader(prefix: seq<byte>, payload: seq<byte>)
    requires Delimiter !in prefix
    ensures RemoveHeader(prefix + [Delimiter] + payload) == Ok(payload)
  {
    SplitAtFirst(prefix, Delimiter, payload);
  }

  /** Removing a header undoes adding it, for every layer and every payload, even one holding `|`. */
  lemma RemoveAddHeader(layer: Layer, payload: seq<byte>)
    ensures RemoveHeader(AddHeader(layer, payload)) == Ok(payload)
  {
    TagShape(layer);
    var t := Tag(layer);
    assert t == t[..|t| - 1] + [Delimiter];
    assert AddHeader(layer, payload) == t[..|t| - 1] + [Delimiter] + payload;
    RemoveAnyHeader(t[..|t| - 1], payload);
  }

  /** The sender's framing: L5, then L4, then L3, then L2. */
  function Frame(payload: seq<byte>): seq<byte>
  {
    AddHeader(Link, AddHeader(Network, AddHeader(Transport, AddHeader(Session, payload))))
  }

  /** The receiver's unframing: L2_remove, then L3_remove, then L4_remove, then L5_remove; the first error stops it. */
  function Unframe(data: seq<byte>): Result<seq<byte>>
  {
    match RemoveHeader(data)
    case Err(e) => Err(e)
    case Ok(l3) =>
      match RemoveHeader(l3)
      case Err(e) => Err(e)
      case Ok(l4) =>
        match RemoveHeader(l4)
        case Err(e) => Err(e)
        case Ok(l5) => RemoveHeader(l5)
  }

  /** Unframing in the receiver's order recovers the payload the sender framed. */
  lemma UnframeFrame(payload: seq<byte>)
    ensures Unframe(Frame(payload)) == Ok(payload)
  {
    var l5 := AddHeader(Session, payload);
    var l4 := AddHeader(Transport, l5);
    var l3 := AddHeader(Network, l4);
    RemoveAddHeader(Link, l3);
    RemoveAddHeader(Network, l4);
    RemoveAddHeader(Transport, l5);
    RemoveAddHeader(Session, payload);
  }
}
