/** Encoded sizes of realtime frames (JSON, RFC 8259), in bytes. */
module FrameSizes {
  import opened Common
  import opened Calendars
  import opened OrderForms
  import opened Orders
  import opened Events
  import opened Batching

  /** Bytes one rune of a string takes once escaped: two-character escapes for quotes,
      backslash and the common controls, \uXXXX for the other controls, for the characters the
      encoder keeps out of HTML, and for the two line separators (section 7 of RFC 8259). */
  function EscapedRune(c: char): nat {
    if c == '"' || c == '\\' || c == '\n' || c == '\r' || c == '\t' || c as int == 8 || c as int == 12 then 2
    else if c as int < 0x20 || c == '<' || c == '>' || c == '&' || c as int == 0x2028 || c as int == 0x2029 then 6
    else RuneBytes(c)
  }

  function Escaped(s: string): nat {
    if s == [] then 0 else EscapedRune(s[0]) + Escaped(s[1..])
  }

  function TextSize(s: string): nat { 2 + Escaped(s) }

  function IntSize(n: int): nat { if n < 0 then 1 + |Digits(-n)| else |Digits(n)| }

  function OptionSize(n: Option<int>): nat { if n.None? then 4 else IntSize(n.value) }

  function ArraySize(codes: seq<int16>): nat {
    if codes == [] then 2
    else if |codes| == 1 then 2 + IntSize(codes[0]) else IntSize(codes[0]) + 1 + ArraySize(codes[1..])
  }

  /** A time takes as many characters as its zone needs; `stamp` gives their number. */
  type StampSize = int -> nat

  function KeySize(name: string): nat { |name| + 3 }

  const UUID_SIZE := 38

  const KEYS_SIZE: nat :=
    KeySize("id") + KeySize("version") + KeySize("displayNo") + KeySize("stapleTypeCode") + KeySize("sizeCode")
    + KeySize("customSizePriceCents") + KeySize("stapleAmountCode") + KeySize("extraStapleUnits")
    + KeySize("friedEggCount") + KeySize("tofuSkewerCount") + KeySize("selectedMeatCodes") + KeySize("greensCode")
    + KeySize("scallionCode") + KeySize("pepperCode") + KeySize("diningMethodCode") + KeySize("packagingCode")
    + KeySize("packagingMethodCode") + KeySize("totalPriceCents") + KeySize("stapleStepStatusCode")
    + KeySize("meatStepStatusCode") + KeySize("note") + KeySize("createdAt") + KeySize("updatedAt")
    + KeySize("completedAt")

  /** Two braces, 23 commas, the keys and the values. */
  function DtoSize(stamp: StampSize, d: OrderDto): nat {
    25 + KEYS_SIZE + UUID_SIZE + IntSize(d.version) + TextSize(d.displayNo) + FormSize(d.form)
    + IntSize(d.totalPrice) + IntSize(d.stapleStatus) + IntSize(d.meatStatus)
    + (2 + stamp(d.createdAt)) + (2 + stamp(d.updatedAt))
    + (if d.completedAt.None? then 4 else 2 + stamp(d.completedAt.value))
  }

  function FormSize(f: OrderForm): nat {
    OptionSize(f.stapleType) + IntSize(f.size) + OptionSize(f.customSizePrice) + IntSize(f.stapleAmount)
    + IntSize(f.extraStapleUnits) + IntSize(f.friedEggs) + IntSize(f.tofuSkewers) + ArraySize(f.meats)
    + IntSize(f.greens) + IntSize(f.scallion) + IntSize(f.pepper) + IntSize(f.dining)
    + OptionSize(f.packaging) + OptionSize(f.packagingMethod) + TextSize(f.note)
  }

  function ItemsSize(stamp: StampSize, items: seq<OrderDto>): nat {
    if items == [] then 0
    else DtoSize(stamp, items[0]) + (if |items| > 1 then 1 else 0) + ItemsSize(stamp, items[1..])
  }

  /** The complete message, with the newline the encoder appends. */
  function BatchSize(stamp: StampSize, items: seq<OrderDto>): nat {
    |"{\"type\":\"order.upsert_many\",\"data\":{\"items\":[]}}"| + 1 + ItemsSize(stamp, items)
  }

  function SingleSize(stamp: StampSize, item: OrderDto): nat {
    |"{\"type\":\"order.upsert\",\"data\":{\"item\":}}"| + 1 + DtoSize(stamp, item)
  }

  function FrameBytes(stamp: StampSize, e: Event): nat
    requires e.Upsert? || e.UpsertMany?
  {
    if e.Upsert? then SingleSize(stamp, e.item) else BatchSize(stamp, e.items)
  }

  // ---- The size is a monotone frame cost ----

  lemma {:induction false} DroppingShrinks(stamp: StampSize, s: seq<OrderDto>, i: nat)
    requires i <= |s|
    ensures ItemsSize(stamp, s[i..]) <= ItemsSize(stamp, s)
  {
    hide DtoSize;
    if i > 0 {
      DroppingShrinks(stamp, s[1..], i - 1);
      assert s[1..][i - 1..] == s[i..];
    } else {
      assert s[0..] == s;
    }
  }

  lemma {:induction false} TakingShrinks(stamp: StampSize, s: seq<OrderDto>, j: nat)
    requires j <= |s|
    ensures ItemsSize(stamp, s[..j]) <= ItemsSize(stamp, s)
  {
    hide DtoSize;
    if j > 0 {
      TakingShrinks(stamp, s[1..], j - 1);
      assert s[..j][1..] == s[1..][..j - 1];
    }
  }

  lemma BatchSizeIsMonotone(stamp: StampSize)
    ensures Monotone(items => BatchSize(stamp, items))
  {
    forall s: seq<OrderDto>, i, j | 0 <= i <= j <= |s|
      ensures BatchSize(stamp, s[i..j]) <= BatchSize(stamp, s)
    {
      TakingShrinks(stamp, s, j);
      DroppingShrinks(stamp, s[..j], i);
      assert s[..j][i..] == s[i..j];
    }
  }

  /** With the encoded sizes of real frames, no legal split of the items is published in fewer
      frames than the service publishes. */
  lemma FewestFrames(stamp: StampSize, items: seq<Order>, parts: seq<seq<Order>>)
    requires LegalSplit(x => BatchSize(stamp, x), items, parts)
    ensures |Published(x => BatchSize(stamp, x), items)| <= |parts|
  {
    hide Fits, Greedy, Monotone;
    var cost := x => BatchSize(stamp, x);
    BatchSizeIsMonotone(stamp);
    GreedyIsOptimal(cost, items, parts);
    GreedyIsLegal(cost, items);
  }

  // ---- One order always fits ----

  lemma {:induction false} EscapingBound(s: string)
    ensures Escaped(s) <= 6 * ByteLength(s)
  {
    if s != [] { EscapingBound(s[1..]); }
  }

  function Power10(k: nat): nat { if k == 0 then 1 else 10 * Power10(k - 1) }

  lemma {:induction false} DigitsBound(n: nat, k: nat)
    requires k >= 1 && n < Power10(k)
    ensures |Digits(n)| <= k
  {
    if n >= 10 {
      assert k > 1;
      assert n / 10 < Power10(k - 1);
      DigitsBound(n / 10, k - 1);
    }
  }

  lemma Powers()
    ensures Power10(1) == 10 && Power10(5) == 100_000 && Power10(10) == 10_000_000_000
    ensures Power10(19) == 10_000_000_000_000_000_000
  {
    assert Power10(2) == 100;
    assert Power10(3) == 1000;
    assert Power10(4) == 10_000;
    assert Power10(6) == 1_000_000;
    assert Power10(7) == 10_000_000;
    assert Power10(8) == 100_000_000;
    assert Power10(9) == 1_000_000_000;
    assert Power10(11) == 100_000_000_000;
    assert Power10(12) == 1_000_000_000_000;
    assert Power10(13) == 10_000_000_000_000;
    assert Power10(14) == 100_000_000_000_000;
    assert Power10(15) == 1_000_000_000_000_000;
    assert Power10(16) == 10_000_000_000_000_000;
    assert Power10(17) == 100_000_000_000_000_000;
    assert Power10(18) == 1_000_000_000_000_000_000;
  }

  lemma {:induction false} MeatsBound(codes: seq<int16>)
    requires forall i :: 0 <= i < |codes| ==> 1 <= codes[i] <= 6
    ensures ArraySize(codes) <= 2 + 2 * |codes|
  {
    if |codes| > 1 { MeatsBound(codes[1..]); }
  }

  lemma {:induction false} FewCodes(codes: seq<int16>, low: int)
    requires StrictlyIncreasing(codes) && low <= 7
    requires forall i :: 0 <= i < |codes| ==> low <= codes[i] <= 6
    ensures |codes| <= 7 - low
    decreases |codes|
  {
    if codes != [] {
      var next: int := codes[0] as int + 1;
      FewCodes(codes[1..], next);
    }
  }

  lemma FormBound(f: OrderForm)
    requires NormalForm(f) && (f.customSizePrice.Some? ==> f.customSizePrice.value <= MAX_INT32)
    ensures FormSize(f) <= 6 * MAX_NOTE_BYTES + 100
  {
    hide StrictlyIncreasing, Trimmed, VisibleMeats, Escaped, ArraySize, ByteLength, Digits;
    CountsBound(f);
    CodesBound(f);
    assert forall i :: 0 <= i < |f.meats| ==> f.meats[i] in f.meats;
    MeatsBound(f.meats);
    FewCodes(f.meats, 1);
    EscapingBound(f.note);
  }

  lemma CodesBound(f: OrderForm)
    requires ValidCodes(f)
    ensures IntSize(f.size) == IntSize(f.stapleAmount) == IntSize(f.greens) == IntSize(f.scallion) == 1
    ensures IntSize(f.pepper) == IntSize(f.dining) == 1
    ensures OptionSize(f.stapleType) <= 4 && OptionSize(f.packaging) <= 4 && OptionSize(f.packagingMethod) <= 4
  {
  }

  lemma CountsBound(f: OrderForm)
    requires ValidCodes(f)
    requires f.customSizePrice.Some? ==> 0 < f.customSizePrice.value <= MAX_INT32
    ensures IntSize(f.extraStapleUnits) <= 5 && IntSize(f.friedEggs) <= 5 && IntSize(f.tofuSkewers) <= 5
    ensures OptionSize(f.customSizePrice) <= 10
  {
    Powers();
    DigitsBound(f.extraStapleUnits, 5);
    DigitsBound(f.friedEggs, 5);
    DigitsBound(f.tofuSkewers, 5);
    if f.customSizePrice.Some? { DigitsBound(f.customSizePrice.value, 10); }
  }

  lemma {:induction false} DigitsEscape(s: string)
    requires forall i :: 0 <= i < |s| ==> '0' <= s[i] <= '9'
    ensures Escaped(s) == |s|
  {
    if s != [] { DigitsEscape(s[1..]); }
  }

  /** A padded number is all digits. */
  lemma PadIsDigits(n: nat, width: nat)
    ensures forall i :: 0 <= i < |Pad(n, width)| ==> '0' <= Pad(n, width)[i] <= '9'
    ensures |Pad(n, width)| == if |Digits(n)| < width then width else |Digits(n)|
  {
    DigitsOnly(n);
  }

  lemma DisplayNoBound(c: Civil, n: nat)
    requires c.WellFormed() && n <= MAX_INT32
    ensures TextSize(BuildDisplayNo(c, n)) <= 20
  {
    hide Pad, Digits, Escaped;
    DateWidth(c);
    PadIsDigits(c.year, 4);
    PadIsDigits(c.month, 2);
    PadIsDigits(c.day, 2);
    PadIsDigits(n, 4);
    assert |Digits(n)| <= 10 by {
      Powers();
      DigitsBound(n, 10);
    }
    DigitsEscape(BuildDisplayNo(c, n));
  }

  /** The bound that makes the publisher's fallback defensive: an order stored with a normalized
      form and a display number of the service encodes, alone, far within the frame budget. */
  lemma SingleOrderFits(stamp: StampSize, o: Order, c: Civil, n: nat)
    requires forall t :: stamp(t) <= 25
    requires RowOk(o) && Storable(o) && o.version < 0x8000_0000_0000_0000
    requires c.WellFormed() && n <= MAX_INT32 && o.displayNo == BuildDisplayNo(c, n)
    ensures DtoSize(stamp, ToDto(o)) <= 7000
    ensures BatchSize(stamp, [ToDto(o)]) <= MAX_FRAME_BYTES
    ensures SingleSize(stamp, ToDto(o)) <= MAX_FRAME_BYTES
  {
    hide FormSize, TextSize, NormalForm, TotalPrice, BuildDisplayNo, CanServe, StatusOk;
    RowNumbers(o);
    FormBound(o.form);
    DisplayNoBound(c, n);
    assert KEYS_SIZE <= 500;
    assert ItemsSize(stamp, [ToDto(o)]) == DtoSize(stamp, ToDto(o)) + ItemsSize(stamp, []);
  }

  lemma RowNumbers(o: Order)
    requires RowOk(o) && Storable(o) && o.version < 0x8000_0000_0000_0000
    ensures IntSize(o.version) <= 19 && IntSize(o.totalPrice) <= 10
    ensures IntSize(o.stapleStatus) == 1 && IntSize(o.meatStatus) == 1
  {
    Powers();
    DigitsBound(o.version, 19);
    PriceOfNormalForm(o.form);
    DigitsBound(o.totalPrice, 10);
  }

  /** Every frame published for such orders is within the budget, batches and single frames alike. */
  lemma FramesFit(stamp: StampSize, items: seq<Order>, i: nat)
    requires forall o :: o in items ==>
               BatchSize(stamp, [ToDto(o)]) <= MAX_FRAME_BYTES && SingleSize(stamp, ToDto(o)) <= MAX_FRAME_BYTES
    requires i < |Published(x => BatchSize(stamp, x), items)|
    ensures var e := Published(x => BatchSize(stamp, x), items)[i].event;
            (e.Upsert? || e.UpsertMany?) && FrameBytes(stamp, e) <= MAX_FRAME_BYTES
  {
    var cost := x => BatchSize(stamp, x);
    if |items| != 1 {
      GreedyIsLegal(cost, items);
      var part := Greedy(cost, items)[i];
      assert Fits(cost, part);
      if |part| == 1 {
        FlattenHolds(Greedy(cost, items), i);
        assert ToDtos(part) == [ToDto(part[0])];
      }
    }
  }
}
