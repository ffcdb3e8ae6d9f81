/**
 A query result item and its lazily decoded value. C's record never changes while the handle
 lives, so an item without any cache would answer every call from that record alone: this is
 `Answer`, which knows nothing but the calls made so far. The class keeps the cache that the
 code keeps, and every method answers what `Answer` says.
 */
module LazyItem {
  import opened Wrappers

  type Bytes = seq<bv8>

  datatype Any = Bool(flag: bool) | Text(text: string) | Opaque(id: nat)

  type Document = map<string, Any>

  /** What C holds for one item: its CBOR, empty when C has none, and its JSON text, if C can produce one. */
  datatype Content = Content(cbor: Bytes, json: Option<Bytes>)

  /** The CBOR decoder; CBOR null decodes to Go's nil map, and targets are destination variables of any type. */
  datatype Codec = Codec(
    decodeToMap: Bytes -> Result<Option<Document>, string>,
    decodeInto: (Bytes, nat) -> Result<Any, string>)

  datatype Op =
    | Value | IsMaterialized | Materialize | Dematerialize
    | CBORData | JSONData | JSONString | UnmarshalTo(target: nat)
    | Close

  datatype Failure = ItemClosed | NoData | Undecodable(message: string)

  datatype Reply =
    | Nothing
    | Doc(doc: Option<Document>)
    | Flag(flag: bool)
    | Data(data: Option<Bytes>)
    | String(text: Bytes)
    | Decoded(outcome: Result<Any, Failure>)

  // ---------------------------------------------------------------- the item without a cache

  const DECODE_ERROR := "_cbor_decode_error"
  const ERROR_MESSAGE := "_error_message"

  /** The document of an item, decoded afresh. A record that does not decode yields a marker document. */
  function Fresh(c: Content, k: Codec): Option<Document> {
    if c.cbor == [] then None
    else
      match k.decodeToMap(c.cbor)
      case Ok(doc) => doc
      case Err(message) => Some(map[DECODE_ERROR := Bool(true), ERROR_MESSAGE := Text(message)])
  }

  /** Whether the item holds its value in memory after the calls `past`. */
  predicate HeldAfter(c: Content, k: Codec, past: seq<Op>) {
    if past == [] then false
    else
      var before := past[..|past| - 1];
      match past[|past| - 1]
      case Value | Materialize => Close !in before && Fresh(c, k).Some?
      case Dematerialize | Close => false
      case _ => HeldAfter(c, k, before)
  }

  /** The reply to `op` after the calls `past`. */
  function Answer(c: Content, k: Codec, past: seq<Op>, op: Op): Reply {
    var closed := Close in past;
    match op
    case Value => Doc(if closed then Some(map[]) else Fresh(c, k))
    case IsMaterialized => Flag(HeldAfter(c, k, past))
    case CBORData => Data(if closed || c.cbor == [] then None else Some(c.cbor))
    case JSONData => Data(if closed then None else c.json)
    case JSONString => String(if closed || c.json.None? then [] else c.json.value)
    case UnmarshalTo(target) =>
      Decoded(if closed then Err(ItemClosed)
              else if c.cbor == [] then Err(NoData)
              else match k.decodeInto(c.cbor, target)
                   case Ok(v) => Ok(v)
                   case Err(message) => Err(Undecodable(message)))
    case _ => Nothing
  }

  /**
   The replies of an open item fit together: Value and UnmarshalTo decode what CBORData returns,
   and JSONString is what JSONData returns.
   */
  lemma {:induction false} RepliesAgree(c: Content, k: Codec, past: seq<Op>, target: nat) returns (cbor: Option<Bytes>, json: Option<Bytes>)
    requires Close !in past
    ensures Answer(c, k, past, CBORData) == Data(cbor) && (cbor.Some? <==> c.cbor != []) && (cbor.Some? ==> cbor.value == c.cbor)
    ensures Answer(c, k, past, JSONData) == Data(json) && json == c.json
    ensures Answer(c, k, past, JSONString) == String(if json.Some? then json.value else [])
    ensures cbor.None? ==> Answer(c, k, past, Value) == Doc(None) && Answer(c, k, past, UnmarshalTo(target)) == Decoded(Err(NoData))
    ensures cbor.Some? ==> Answer(c, k, past, UnmarshalTo(target)) ==
                           Decoded(match k.decodeInto(cbor.value, target)
                                   case Ok(v) => Ok(v)
                                   case Err(message) => Err(Undecodable(message)))
    ensures cbor.Some? && k.decodeToMap(cbor.value).Ok? ==> Answer(c, k, past, Value) == Doc(k.decodeToMap(cbor.value).value)
    ensures cbor.Some? && k.decodeToMap(cbor.value).Err? ==>
              Answer(c, k, past, Value) ==
              Doc(Some(map["_cbor_decode_error" := Bool(true), "_error_message" := Text(k.decodeToMap(cbor.value).error)]))
  {
    cbor := if c.cbor == [] then None else Some(c.cbor);
    json := c.json;
  }

  function WithoutHints(past: seq<Op>): (r: seq<Op>) {
    if past == [] then []
    else
      var last := past[|past| - 1];
      WithoutHints(past[..|past| - 1]) + if last.Materialize? || last.Dematerialize? then [] else [last]
  }

  /** Materialize and Dematerialize change no reply except that of IsMaterialized. */
  lemma {:induction false} HintsAreInvisible(c: Content, k: Codec, past: seq<Op>, op: Op)
    requires !op.IsMaterialized?
    ensures Answer(c, k, past, op) == Answer(c, k, WithoutHints(past), op)
  {
    if past != [] {
      assert past == past[..|past| - 1] + [past[|past| - 1]];
      HintsAreInvisible(c, k, past[..|past| - 1], op);
      HintsKeepClose(past);
    }
  }

  lemma {:induction false} HintsKeepClose(past: seq<Op>)
    ensures Close in WithoutHints(past) <==> Close in past
  {
    if past != [] {
      assert past == past[..|past| - 1] + [past[|past| - 1]];
      HintsKeepClose(past[..|past| - 1]);
    }
  }

  /** Call i loaded the value and nothing since has dropped it. */
  ghost predicate LoadedAt(past: seq<Op>, i: int) {
    && 0 <= i < |past|
    && (past[i].Value? || past[i].Materialize?)
    && (forall j | i < j < |past| :: !past[j].Dematerialize?)
  }

  /** A value is held exactly when the record has one, the item is open, and a loading call came after the last Dematerialize. */
  lemma {:induction false} HeldExactly(c: Content, k: Codec, past: seq<Op>)
    ensures HeldAfter(c, k, past) <==> Fresh(c, k).Some? && Close !in past && exists i :: LoadedAt(past, i)
  {
    if past != [] {
      var n := |past| - 1;
      var before, last := past[..n], past[n];
      assert past == before + [last];
      HeldExactly(c, k, before);
      if last.Value? || last.Materialize? {
        assert LoadedAt(past, n);
      } else if !last.Dematerialize? && !last.Close? {
        forall i ensures LoadedAt(past, i) <==> LoadedAt(before, i) {
          if LoadedAt(before, i) {
            forall j | i < j < |past| ensures !past[j].Dematerialize? { assert j < n ==> past[j] == before[j]; }
          }
          if LoadedAt(past, i) {
            forall j | i < j < |before| ensures !before[j].Dematerialize? { assert past[j] == before[j]; }
          }
        }
      }
    }
  }

  lemma {:induction false} NothingHeldAfterClose(c: Content, k: Codec, past: seq<Op>)
    ensures !HeldAfter(c, k, past + [Close]) && Close in past + [Close]
  {
    assert (past + [Close])[|past|] == Close;
  }

  // ---------------------------------------------------------------- the item with its cache

  class ItemHandle {
    var ptr: Option<Content>
    var finalized: bool
    var cFrees: nat

    constructor (content: Content)
      ensures ptr == Some(content) && !finalized && cFrees == 0
    {
      ptr, finalized, cFrees := Some(content), false, 0;
    }

    predicate IsValid()
      reads this
    {
      ptr.Some? && !finalized
    }

    method Free()
      modifies this
      ensures !IsValid() && finalized
      ensures cFrees == old(cFrees) + if old(IsValid()) then 1 else 0
    {
      if !finalized {
        finalized := true;
        if ptr.Some? {
          cFrees := cFrees + 1;
          ptr := None;
        }
      }
    }
  }

  class QueryResultItem {
    const codec: Codec
    ghost const content: Content
    ghost const owned: ItemHandle
    ghost var past: seq<Op>
    var handle: ItemHandle?
    var materializedValue: Option<Document>
    var closed: bool

    /** `closed` says no more than `handle == null`: it could be dropped. */
    ghost predicate Valid()
      reads this, owned
    {
      && closed == (Op.Close in past)
      && (closed <==> handle == null)
      && (!closed ==> handle == owned && owned.ptr == Some(content) && owned.IsValid())
      && owned.cFrees == (if closed then 1 else 0)
      && materializedValue.Some? == HeldAfter(content, codec, past)
      && (materializedValue.Some? ==> !closed && materializedValue == Fresh(content, codec))
    }

    constructor (handle: ItemHandle, content: Content, codec: Codec)
      requires handle.ptr == Some(content) && handle.IsValid() && handle.cFrees == 0
      ensures Valid() && past == [] && this.content == content && this.codec == codec && owned == handle
    {
      this.handle, this.content, this.owned, this.codec := handle, content, handle, codec;
      materializedValue, closed, past := None, false, [];
    }

    predicate HandleValid()
      reads this, handle
    {
      handle != null && handle.IsValid()
    }

    /** What C returns for the item's CBOR; the handle has been checked before. */
    function Cbor(): Option<Bytes>
      requires HandleValid()
      reads this, handle
    {
      if handle.ptr.value.cbor == [] then None else Some(handle.ptr.value.cbor)
    }

    method MaterializeInternal()
      requires HandleValid() && handle.ptr == Some(content) && materializedValue.None?
      modifies this`materializedValue
      ensures materializedValue == Fresh(content, codec)
    {
      if Cbor().None? {
        return;
      }
      match codec.decodeToMap(Cbor().value) {
        case Err(message) =>
          materializedValue := Some(map[DECODE_ERROR := Bool(true), ERROR_MESSAGE := Text(message)]);
        case Ok(result) =>
          materializedValue := result;
      }
    }

    method Value() returns (r: Option<Document>)
      requires Valid()
      modifies this`materializedValue, this`past
      ensures Valid() && past == old(past) + [Op.Value]
      ensures Doc(r) == Answer(content, codec, old(past), Op.Value)
      ensures Op.Close in old(past) ==> r == Some(map[])
      ensures Op.Close !in old(past) && content.cbor == [] ==> r == None
      ensures Op.Close !in old(past) && content.cbor != [] ==>
                r == match codec.decodeToMap(content.cbor)
                     case Ok(doc) => doc
                     case Err(message) => Some(map["_cbor_decode_error" := Bool(true), "_error_message" := Text(message)])
    {
      past := past + [Op.Value];
      assert past[..|past| - 1] == old(past);
      if closed {
        return Some(map[]);
      }
      if materializedValue.Some? {
        return materializedValue;
      }
      if HandleValid() {
        MaterializeInternal();
      }
      return materializedValue;
    }

    method IsMaterialized() returns (r: bool)
      requires Valid()
      modifies this`past
      ensures Valid() && past == old(past) + [Op.IsMaterialized]
      ensures Flag(r) == Answer(content, codec, old(past), Op.IsMaterialized)
    {
      past := past + [Op.IsMaterialized];
      assert past[..|past| - 1] == old(past);
      return materializedValue.Some?;
    }

    method Materialize()
      requires Valid()
      modifies this`materializedValue, this`past
      ensures Valid() && past == old(past) + [Op.Materialize]
    {
      past := past + [Op.Materialize];
      assert past[..|past| - 1] == old(past);
      if closed || materializedValue.Some? {
        return;
      }
      MaterializeInternal();
    }

    method Dematerialize()
      requires Valid()
      modifies this`materializedValue, this`past
      ensures Valid() && past == old(past) + [Op.Dematerialize]
    {
      past := past + [Op.Dematerialize];
      materializedValue := None;
    }

    /** An open item always has a valid handle, so the code that would encode the cached value is never reached. */
    method CBORData() returns (r: Option<Bytes>)
      requires Valid()
      modifies this`past
      ensures Valid() && past == old(past) + [Op.CBORData]
      ensures Data(r) == Answer(content, codec, old(past), Op.CBORData)
      ensures r.Some? <==> Op.Close !in old(past) && content.cbor != []
      ensures r.Some? ==> r.value == content.cbor
    {
      past := past + [Op.CBORData];
      assert past[..|past| - 1] == old(past);
      if closed {
        return None;
      }
      if HandleValid() {
        return Cbor();
      }
      assert false;
    }

    method JSONData() returns (r: Option<Bytes>)
      requires Valid()
      modifies this`past
      ensures Valid() && past == old(past) + [Op.JSONData]
      ensures Data(r) == Answer(content, codec, old(past), Op.JSONData)
      ensures r == if Op.Close in old(past) then None else content.json
    {
      past := past + [Op.JSONData];
      assert past[..|past| - 1] == old(past);
      if closed {
        return None;
      }
      if HandleValid() {
        return handle.ptr.value.json;
      }
      assert false;
    }

    method JSONString() returns (r: Bytes)
      requires Valid()
      modifies this`past
      ensures Valid() && past == old(past) + [Op.JSONString]
      ensures String(r) == Answer(content, codec, old(past), Op.JSONString)
      ensures Op.Close !in old(past) && content.json.Some? ==> r == content.json.value
      ensures Op.Close in old(past) || content.json.None? ==> r == []
    {
      past := past + [Op.JSONString];
      assert past[..|past| - 1] == old(past);
      if closed {
        return [];
      }
      if HandleValid() {
        match handle.ptr.value.json {
          case None => return [];
          case Some(text) => return text;
        }
      }
      assert false;
    }

    method UnmarshalTo(target: nat) returns (r: Result<Any, Failure>)
      requires Valid()
      modifies this`past
      ensures Valid() && past == old(past) + [Op.UnmarshalTo(target)]
      ensures Decoded(r) == Answer(content, codec, old(past), Op.UnmarshalTo(target))
      ensures r == Err(ItemClosed) <==> Op.Close in old(past)
      ensures r == Err(NoData) <==> Op.Close !in old(past) && content.cbor == []
      ensures Op.Close !in old(past) && content.cbor != [] ==>
                r == match codec.decodeInto(content.cbor, target)
                     case Ok(v) => Ok(v)
                     case Err(message) => Err(Undecodable(message))
    {
      past := past + [Op.UnmarshalTo(target)];
      assert past[..|past| - 1] == old(past);
      if closed {
        return Err(ItemClosed);
      }
      if Cbor().None? {
        return Err(NoData);
      }
      match codec.decodeInto(Cbor().value, target) {
        case Err(message) => return Err(Undecodable(message));
        case Ok(v) => return Ok(v);
      }
    }

    /** However often it is called, C frees the record once. */
    method Close()
      requires Valid()
      modifies this`handle, this`materializedValue, this`closed, this`past, owned
      ensures Valid() && past == old(past) + [Op.Close]
      ensures closed && owned.cFrees == 1
    {
      past := past + [Op.Close];
      NothingHeldAfterClose(content, codec, old(past));
      if closed {
        return;
      }
      materializedValue := None;
      assert HandleValid() && handle == owned && owned.cFrees == 0;
      if HandleValid() {
        handle.Free();
        handle := null;
      }
      closed := true;
    }
  }
}
