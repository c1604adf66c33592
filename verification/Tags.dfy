/** The 64-bit user_data of a completion: 61 bits of register id, 3 bits of event id. The bit
    forms are the source's; `Pack` and `Parse` are their values on unbounded numbers, which the
    other modules use. */
module Tags {

  const ID_FLAGS_SIZE := 3
  const MASK_ID_RIGHT: bv64 := (1 << ID_FLAGS_SIZE) - 1
  const MASK_ID_LEFT: bv64 := 0xFFFF_FFFF_FFFF_FFFF - MASK_ID_RIGHT
  const MAX_ID_LEFT: bv64 := MASK_ID_LEFT >> ID_FLAGS_SIZE

  /** LIBURING_UDATA_TIMEOUT, the all-ones tag the loop skips. */
  const UDATA_TIMEOUT: bv64 := 0xFFFF_FFFF_FFFF_FFFF

  /** The panic guards of ud_pack. */
  predicate Packable(id: bv64, event: bv64) {
    id <= MAX_ID_LEFT && event <= MASK_ID_RIGHT
  }

  function UdPack(id: bv64, event: bv64): bv64
    requires Packable(id, event)
  {
    event | (id << ID_FLAGS_SIZE)
  }

  function UdParse(ud: bv64): (bv64, bv64) {
    (ud >> ID_FLAGS_SIZE, ud & MASK_ID_RIGHT)
  }

  lemma PackParse(id: bv64, event: bv64)
    requires Packable(id, event)
    ensures UdParse(UdPack(id, event)) == (id, event)
  {
    assert MAX_ID_LEFT == 0x1FFF_FFFF_FFFF_FFFF;
  }

  /** Parsing loses nothing: every 64-bit word is the packing of what it parses to. */
  lemma ParsePack(ud: bv64)
    ensures Packable(UdParse(ud).0, UdParse(ud).1)
    ensures UdPack(UdParse(ud).0, UdParse(ud).1) == ud
  {
    assert MAX_ID_LEFT == 0x1FFF_FFFF_FFFF_FFFF;
  }

  lemma PackInjective(id: bv64, event: bv64, id': bv64, event': bv64)
    requires Packable(id, event) && Packable(id', event')
    ensures UdPack(id, event) == UdPack(id', event') <==> id == id' && event == event'
  {
    PackParse(id, event);
    PackParse(id', event');
  }

  /** make_register_id starts at 1: no tag of events 0 to 2 is one the loop skips. Event 7 of the
      largest id would be. */
  lemma NeverSkipped(id: bv64, event: bv64)
    requires Packable(id, event) && id != 0
    ensures UdPack(id, event) != 0
    ensures UdPack(id, event) == UDATA_TIMEOUT <==> id == MAX_ID_LEFT && event == 7
  {
    PackParse(id, event);
    assert UdParse(UDATA_TIMEOUT) == (MAX_ID_LEFT, 7);
    ParsePack(UDATA_TIMEOUT);
  }

  // ---------- The same on numbers ----------

  const MAX_ID: nat := 0x1FFF_FFFF_FFFF_FFFF
  const TIMEOUT_TAG: nat := 0xFFFF_FFFF_FFFF_FFFF

  function Pack(id: nat, event: nat): nat {
    8 * id + event
  }

  function Parse(tag: nat): (nat, nat) {
    (tag / 8, tag % 8)
  }

  /** The low octal digit of a word, from its bits. */
  function Low(u: bv64): nat {
    (if u & 4 == 4 then 4 else 0) + (if u & 2 == 2 then 2 else 0) + (if u & 1 == 1 then 1 else 0)
  }

  /** The unsigned value of a word, octal digit by octal digit. */
  function Value(u: bv64): nat
    decreases u
  {
    if u == 0 then 0 else 8 * Value(u >> 3) + Low(u)
  }

  lemma LowBits(id: bv64, event: bv64)
    requires Packable(id, event)
    ensures UdPack(id, event) >> 3 == id && event >> 3 == 0
    ensures Low(UdPack(id, event)) == Low(event)
  {
    var u := UdPack(id, event);
    assert MAX_ID_LEFT == 0x1FFF_FFFF_FFFF_FFFF;
    assert u & 4 == event & 4 && u & 2 == event & 2 && u & 1 == event & 1;
  }

  lemma ValueOfDigits(u: bv64, high: bv64, digit: bv64)
    requires u >> 3 == high && digit >> 3 == 0 && Low(u) == Low(digit)
    ensures Value(u) == 8 * Value(high) + Value(digit)
  {
    ValueUnfolds(u);
    ValueUnfolds(digit);
  }

  lemma ValueUnfolds(u: bv64)
    ensures Value(u) == 8 * Value(u >> 3) + Low(u)
  {
  }

  /** The shift-and-or of ud_pack has the value 8 * id + event. */
  lemma PackValue(id: bv64, event: bv64)
    requires Packable(id, event)
    ensures Value(UdPack(id, event)) == Pack(Value(id), Value(event))
  {
    LowBits(id, event);
    ValueOfDigits(UdPack(id, event), id, event);
  }

  lemma ParseOfPack(id: nat, event: nat)
    requires event <= 7
    ensures Parse(Pack(id, event)) == (id, event)
  {
  }
}
