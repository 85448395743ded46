/** The text of realtime frames (JSON, RFC 8259), and that the sizes of frames are its bytes. */
module FrameTexts {
  import opened Common
  import opened Calendars
  import opened OrderForms
  import opened Orders
  import opened Events
  import opened FrameSizes

  // ---- Values ----

  function Hex(n: nat): char
    requires n < 16
  {
    "0123456789abcdef"[n]
  }

  /** \uXXXX. */
  function UnicodeEscape(c: char): string
    requires c as int < 0x10000
  {
    var u := c as int;
    ['\\', 'u', Hex(u / 0x1000), Hex(u / 0x100 % 16), Hex(u / 16 % 16), Hex(u % 16)]
  }

  /** How the encoder writes one rune of a string. */
  function RuneText(c: char): string {
    var u := c as int;
    if c == '"' || c == '\\' then ['\\', c]
    else if u == 8 then ['\\', 'b']
    else if u == 9 then ['\\', 't']
    else if u == 10 then ['\\', 'n']
    else if u == 12 then ['\\', 'f']
    else if u == 13 then ['\\', 'r']
    else if u < 0x20 || c in "<>&" || u == 0x2028 || u == 0x2029 then UnicodeEscape(c)
    else [c]
  }

  function EscapedText(s: string): string {
    if s == [] then [] else RuneText(s[0]) + EscapedText(s[1..])
  }

  function Quoted(s: string): string { "\"" + EscapedText(s) + "\"" }

  function IntText(n: int): string { if n < 0 then "-" + Digits(-n) else Digits(n) }

  function OptionText(n: Option<int>): string { if n.None? then "null" else IntText(n.value) }

  function Joined(parts: seq<string>): string {
    if parts == [] then ""
    else if |parts| == 1 then parts[0] else parts[0] + "," + Joined(parts[1..])
  }

  function CodesText(codes: seq<int16>): string {
    "[" + Joined(seq(|codes|, i requires 0 <= i < |codes| => IntText(codes[i]))) + "]"
  }

  function Member(name: string, value: string): string { "\"" + name + "\":" + value }

  // ---- Orders ----

  /** How identifiers and times are written. */
  datatype Notation = Notation(uuid: Id -> string, time: int -> string) {
    /** Identifiers take 36 bytes and times as many as `stamp` says, without escapes. */
    ghost predicate Takes(stamp: StampSize) {
      && (forall id :: ByteLength(EscapedText(uuid(id))) == 36)
      && (forall t :: ByteLength(EscapedText(time(t))) == stamp(t))
    }
  }

  function HeadMembers(w: Notation, d: OrderDto): seq<string> {
    [Member("id", Quoted(w.uuid(d.id))), Member("version", IntText(d.version)),
     Member("displayNo", Quoted(d.displayNo))]
  }

  function StapleMembers(f: OrderForm): seq<string> {
    [Member("stapleTypeCode", OptionText(f.stapleType)), Member("sizeCode", IntText(f.size)),
     Member("customSizePriceCents", OptionText(f.customSizePrice)),
     Member("stapleAmountCode", IntText(f.stapleAmount)), Member("extraStapleUnits", IntText(f.extraStapleUnits)),
     Member("friedEggCount", IntText(f.friedEggs)), Member("tofuSkewerCount", IntText(f.tofuSkewers))]
  }

  function ChoiceMembers(f: OrderForm): seq<string> {
    [Member("selectedMeatCodes", CodesText(f.meats)), Member("greensCode", IntText(f.greens)),
     Member("scallionCode", IntText(f.scallion)), Member("pepperCode", IntText(f.pepper)),
     Member("diningMethodCode", IntText(f.dining)), Member("packagingCode", OptionText(f.packaging)),
     Member("packagingMethodCode", OptionText(f.packagingMethod))]
  }

  function TailMembers(w: Notation, d: OrderDto): seq<string> {
    [Member("totalPriceCents", IntText(d.totalPrice)), Member("stapleStepStatusCode", IntText(d.stapleStatus)),
     Member("meatStepStatusCode", IntText(d.meatStatus)), Member("note", Quoted(d.form.note)),
     Member("createdAt", Quoted(w.time(d.createdAt))), Member("updatedAt", Quoted(w.time(d.updatedAt))),
     Member("completedAt", CompletionText(w, d))]
  }

  function CompletionText(w: Notation, d: OrderDto): string {
    if d.completedAt.None? then "null" else Quoted(w.time(d.completedAt.value))
  }

  function DtoText(w: Notation, d: OrderDto): string {
    "{" + Joined(HeadMembers(w, d) + StapleMembers(d.form) + ChoiceMembers(d.form) + TailMembers(w, d)) + "}"
  }

  // ---- Frames ----

  function DtoTexts(w: Notation, items: seq<OrderDto>): seq<string> {
    seq(|items|, i requires 0 <= i < |items| => DtoText(w, items[i]))
  }

  /** The text of an upsert frame, with the newline the encoder appends. */
  function FrameText(w: Notation, e: Event): string
    requires e.Upsert? || e.UpsertMany?
  {
    if e.Upsert? then
      "{\"type\":\"order.upsert\",\"data\":{\"item\":" + DtoText(w, e.item) + "}}\n"
    else
      "{\"type\":\"order.upsert_many\"," + "\"data\":{\"items\":[" + Joined(DtoTexts(w, e.items)) + "]}}\n"
  }

  // ---- Bytes ----

  predicate Ascii(s: string) {
    forall i :: 0 <= i < |s| ==> s[i] as int < 0x80
  }

  lemma {:induction false} AsciiBytes(s: string)
    requires Ascii(s)
    ensures ByteLength(s) == |s|
  {
    if s != [] { AsciiBytes(s[1..]); }
  }

  lemma {:induction false} BytesAppend(a: string, b: string)
    ensures ByteLength(a + b) == ByteLength(a) + ByteLength(b)
  {
    if a == [] {
      assert a + b == b;
    } else {
      assert (a + b)[1..] == a[1..] + b;
      BytesAppend(a[1..], b);
    }
  }

  lemma RuneTextBytes(c: char)
    ensures ByteLength(RuneText(c)) == EscapedRune(c)
  {
    var t := RuneText(c);
    if |t| > 1 { AsciiBytes(t); } else { assert t[1..] == []; }
  }

  lemma {:induction false} EscapedBytes(s: string)
    ensures ByteLength(EscapedText(s)) == Escaped(s)
  {
    hide RuneText, EscapedRune;
    if s != [] {
      RuneTextBytes(s[0]);
      EscapedBytes(s[1..]);
      BytesAppend(RuneText(s[0]), EscapedText(s[1..]));
    }
  }

  lemma QuotedBytes(s: string)
    ensures ByteLength(Quoted(s)) == 2 + ByteLength(EscapedText(s)) == TextSize(s)
  {
    var t := EscapedText(s);
    EscapedBytes(s);
    BytesAppend("\"" + t, "\"");
    BytesAppend("\"", t);
    AsciiBytes("\"");
  }

  lemma IntBytes(n: int)
    ensures ByteLength(IntText(n)) == IntSize(n)
  {
    DigitsOnly(if n < 0 then -n else n);
    AsciiBytes(IntText(n));
  }

  lemma OptionBytes(n: Option<int>)
    ensures ByteLength(OptionText(n)) == OptionSize(n)
  {
    if n.None? { AsciiBytes("null"); } else { IntBytes(n.value); }
  }

  /** Bytes of some texts, and of a comma after each. */
  function TotalBytes(parts: seq<string>): nat {
    if parts == [] then 0 else ByteLength(parts[0]) + 1 + TotalBytes(parts[1..])
  }

  lemma {:induction false} JoinedBytes(parts: seq<string>)
    ensures parts != [] ==> ByteLength(Joined(parts)) + 1 == TotalBytes(parts)
    ensures parts == [] ==> ByteLength(Joined(parts)) == 0
  {
    if |parts| > 1 {
      JoinedBytes(parts[1..]);
      BytesAppend(parts[0] + ",", Joined(parts[1..]));
      BytesAppend(parts[0], ",");
      AsciiBytes(",");
    } else if |parts| == 1 {
      assert parts[1..] == [];
    }
  }

  lemma {:induction false} TotalAppend(a: seq<string>, b: seq<string>)
    ensures TotalBytes(a + b) == TotalBytes(a) + TotalBytes(b)
  {
    if a == [] {
      assert a + b == b;
    } else {
      assert (a + b)[1..] == a[1..] + b;
      TotalAppend(a[1..], b);
    }
  }

  lemma {:induction false} CodesBytes(codes: seq<int16>)
    ensures ByteLength(CodesText(codes)) == ArraySize(codes)
  {
    var parts := seq(|codes|, i requires 0 <= i < |codes| => IntText(codes[i]));
    CodesTotal(codes, parts);
    JoinedBytes(parts);
    BytesAppend("[" + Joined(parts), "]");
    BytesAppend("[", Joined(parts));
    AsciiBytes("[");
    AsciiBytes("]");
  }

  lemma {:induction false} CodesTotal(codes: seq<int16>, parts: seq<string>)
    requires |parts| == |codes| && forall i :: 0 <= i < |codes| ==> parts[i] == IntText(codes[i])
    ensures ArraySize(codes) == (if codes == [] then 2 else TotalBytes(parts) + 1)
  {
    hide IntSize, IntText;
    if codes != [] {
      IntBytes(codes[0]);
      CodesTotal(codes[1..], parts[1..]);
    }
  }

  lemma MemberBytes(name: string, value: string)
    requires Ascii(name)
    ensures ByteLength(Member(name, value)) == KeySize(name) + ByteLength(value)
  {
    BytesAppend("\"" + name + "\":", value);
    AsciiBytes("\"" + name + "\":");
  }

  // ---- Bytes of orders and frames ----

  lemma TotalOfThree(parts: seq<string>)
    requires |parts| == 3
    ensures TotalBytes(parts) == 3 + ByteLength(parts[0]) + ByteLength(parts[1]) + ByteLength(parts[2])
  {
    hide ByteLength;
    assert parts == [parts[0]] + [parts[1]] + [parts[2]];
    TotalAppend([parts[0]] + [parts[1]], [parts[2]]);
    TotalAppend([parts[0]], [parts[1]]);
  }

  lemma TotalOfSeven(parts: seq<string>)
    requires |parts| == 7
    ensures TotalBytes(parts) ==
            7 + ByteLength(parts[0]) + ByteLength(parts[1]) + ByteLength(parts[2]) + ByteLength(parts[3])
            + ByteLength(parts[4]) + ByteLength(parts[5]) + ByteLength(parts[6])
  {
    hide ByteLength, TotalBytes;
    assert parts == parts[..3] + (parts[3..6] + [parts[6]]);
    TotalAppend(parts[..3], parts[3..6] + [parts[6]]);
    TotalAppend(parts[3..6], [parts[6]]);
    TotalOfThree(parts[..3]);
    TotalOfThree(parts[3..6]);
    TotalOfOne(parts[6]);
  }

  lemma TotalOfOne(part: string)
    ensures TotalBytes([part]) == ByteLength(part) + 1
  {
    assert [part][1..] == [];
  }

  lemma HeadBytes(w: Notation, stamp: StampSize, d: OrderDto)
    requires w.Takes(stamp)
    ensures TotalBytes(HeadMembers(w, d)) ==
            3 + KeySize("id") + KeySize("version") + KeySize("displayNo")
            + UUID_SIZE + IntSize(d.version) + TextSize(d.displayNo)
  {
    hide ByteLength, TotalBytes, Member, Quoted, TextSize, EscapedText, IntText, IntSize;
    TotalOfThree(HeadMembers(w, d));
    MemberBytes("id", Quoted(w.uuid(d.id)));
    QuotedBytes(w.uuid(d.id));
    MemberBytes("version", IntText(d.version));
    IntBytes(d.version);
    MemberBytes("displayNo", Quoted(d.displayNo));
    QuotedBytes(d.displayNo);
  }

  lemma StapleBytes(f: OrderForm)
    ensures TotalBytes(StapleMembers(f)) ==
            7 + KeySize("stapleTypeCode") + KeySize("sizeCode") + KeySize("customSizePriceCents")
            + KeySize("stapleAmountCode") + KeySize("extraStapleUnits") + KeySize("friedEggCount")
            + KeySize("tofuSkewerCount")
            + OptionSize(f.stapleType) + IntSize(f.size) + OptionSize(f.customSizePrice) + IntSize(f.stapleAmount)
            + IntSize(f.extraStapleUnits) + IntSize(f.friedEggs) + IntSize(f.tofuSkewers)
  {
    hide ByteLength, TotalBytes, Member, IntText, IntSize, OptionText, OptionSize;
    TotalOfSeven(StapleMembers(f));
    MemberBytes("stapleTypeCode", OptionText(f.stapleType));
    OptionBytes(f.stapleType);
    MemberBytes("sizeCode", IntText(f.size));
    IntBytes(f.size);
    MemberBytes("customSizePriceCents", OptionText(f.customSizePrice));
    OptionBytes(f.customSizePrice);
    MemberBytes("stapleAmountCode", IntText(f.stapleAmount));
    IntBytes(f.stapleAmount);
    MemberBytes("extraStapleUnits", IntText(f.extraStapleUnits));
    IntBytes(f.extraStapleUnits);
    MemberBytes("friedEggCount", IntText(f.friedEggs));
    IntBytes(f.friedEggs);
    MemberBytes("tofuSkewerCount", IntText(f.tofuSkewers));
    IntBytes(f.tofuSkewers);
  }

  lemma ChoiceBytes(f: OrderForm)
    ensures TotalBytes(ChoiceMembers(f)) ==
            7 + KeySize("selectedMeatCodes") + KeySize("greensCode") + KeySize("scallionCode") + KeySize("pepperCode")
            + KeySize("diningMethodCode") + KeySize("packagingCode") + KeySize("packagingMethodCode")
            + ArraySize(f.meats) + IntSize(f.greens) + IntSize(f.scallion) + IntSize(f.pepper) + IntSize(f.dining)
            + OptionSize(f.packaging) + OptionSize(f.packagingMethod)
  {
    hide ByteLength, TotalBytes, Member, IntText, IntSize, OptionText, OptionSize, CodesText, ArraySize;
    TotalOfSeven(ChoiceMembers(f));
    MemberBytes("selectedMeatCodes", CodesText(f.meats));
    CodesBytes(f.meats);
    MemberBytes("greensCode", IntText(f.greens));
    IntBytes(f.greens);
    MemberBytes("scallionCode", IntText(f.scallion));
    IntBytes(f.scallion);
    MemberBytes("pepperCode", IntText(f.pepper));
    IntBytes(f.pepper);
    MemberBytes("diningMethodCode", IntText(f.dining));
    IntBytes(f.dining);
    MemberBytes("packagingCode", OptionText(f.packaging));
    OptionBytes(f.packaging);
    MemberBytes("packagingMethodCode", OptionText(f.packagingMethod));
    OptionBytes(f.packagingMethod);
  }

  lemma TailBytes(w: Notation, stamp: StampSize, d: OrderDto)
    requires w.Takes(stamp)
    ensures TotalBytes(TailMembers(w, d)) ==
            7 + KeySize("totalPriceCents") + KeySize("stapleStepStatusCode") + KeySize("meatStepStatusCode")
            + KeySize("note") + KeySize("createdAt") + KeySize("updatedAt") + KeySize("completedAt")
            + IntSize(d.totalPrice) + IntSize(d.stapleStatus) + IntSize(d.meatStatus) + TextSize(d.form.note)
            + (2 + stamp(d.createdAt)) + (2 + stamp(d.updatedAt))
            + (if d.completedAt.None? then 4 else 2 + stamp(d.completedAt.value))
  {
    hide ByteLength, TotalBytes, Member, Quoted, TextSize, EscapedText, IntText, IntSize, CompletionText;
    TotalOfSeven(TailMembers(w, d));
    MemberBytes("totalPriceCents", IntText(d.totalPrice));
    IntBytes(d.totalPrice);
    MemberBytes("stapleStepStatusCode", IntText(d.stapleStatus));
    IntBytes(d.stapleStatus);
    MemberBytes("meatStepStatusCode", IntText(d.meatStatus));
    IntBytes(d.meatStatus);
    MemberBytes("note", Quoted(d.form.note));
    QuotedBytes(d.form.note);
    MemberBytes("createdAt", Quoted(w.time(d.createdAt)));
    QuotedBytes(w.time(d.createdAt));
    MemberBytes("updatedAt", Quoted(w.time(d.updatedAt)));
    QuotedBytes(w.time(d.updatedAt));
    MemberBytes("completedAt", CompletionText(w, d));
    CompletionBytes(w, stamp, d);
  }

  lemma CompletionBytes(w: Notation, stamp: StampSize, d: OrderDto)
    requires w.Takes(stamp)
    ensures ByteLength(CompletionText(w, d)) == if d.completedAt.None? then 4 else 2 + stamp(d.completedAt.value)
  {
    hide ByteLength, EscapedText, Quoted, TextSize;
    match d.completedAt
    case None => AsciiBytes("null");
    case Some(t) =>
      QuotedBytes(w.time(t));
      assert ByteLength(EscapedText(w.time(t))) == stamp(t);

  }

  lemma DtoBytes(w: Notation, stamp: StampSize, d: OrderDto)
    requires w.Takes(stamp)
    ensures ByteLength(DtoText(w, d)) == DtoSize(stamp, d)
  {
    hide ByteLength, TotalBytes, Joined, HeadMembers, StapleMembers, ChoiceMembers, TailMembers, TextSize, IntSize,
         OptionSize, ArraySize, w.Takes;
    var a, b, c, e := HeadMembers(w, d), StapleMembers(d.form), ChoiceMembers(d.form), TailMembers(w, d);
    HeadBytes(w, stamp, d);
    StapleBytes(d.form);
    ChoiceBytes(d.form);
    TailBytes(w, stamp, d);
    TotalAppend(a + b + c, e);
    TotalAppend(a + b, c);
    TotalAppend(a, b);
    NotEmpty(w, d);
    JoinedBytes(a + b + c + e);
    Around("{", Joined(a + b + c + e), "}");
  }

  lemma NotEmpty(w: Notation, d: OrderDto)
    ensures HeadMembers(w, d) != []
  {
  }

  lemma Around(before: string, text: string, after: string)
    requires Ascii(before) && Ascii(after)
    ensures ByteLength(before + text + after) == |before| + ByteLength(text) + |after|
  {
    BytesAppend(before + text, after);
    BytesAppend(before, text);
    AsciiBytes(before);
    AsciiBytes(after);
  }

  lemma {:induction false} ItemsBytes(w: Notation, stamp: StampSize, items: seq<OrderDto>)
    requires w.Takes(stamp)
    ensures ByteLength(Joined(DtoTexts(w, items))) == ItemsSize(stamp, items)
  {
    hide DtoText, DtoSize, w.Takes;
    var parts := DtoTexts(w, items);
    if items == [] {
      assert parts == [];
    } else {
      DtoBytes(w, stamp, items[0]);
      ItemsBytes(w, stamp, items[1..]);
      assert parts[1..] == DtoTexts(w, items[1..]);
      if |items| > 1 {
        BytesAppend(parts[0] + ",", Joined(parts[1..]));
        BytesAppend(parts[0], ",");
        AsciiBytes(",");
      } else {
        assert items[1..] == [];
      }
    }
  }

  /** The size the publisher measures frames by is the number of bytes of their text. */
  lemma FrameBytesAreBytes(w: Notation, stamp: StampSize, e: Event)
    requires w.Takes(stamp) && (e.Upsert? || e.UpsertMany?)
    ensures ByteLength(FrameText(w, e)) == FrameBytes(stamp, e)
  {
    hide DtoText, DtoSize, Joined, ByteLength, ItemsSize, w.Takes;
    if e.Upsert? {
      DtoBytes(w, stamp, e.item);
      Around("{\"type\":\"order.upsert\",\"data\":{\"item\":", DtoText(w, e.item), "}}\n");
    } else {
      ItemsBytes(w, stamp, e.items);
      assert Ascii("{\"type\":\"order.upsert_many\",");
      assert Ascii("\"data\":{\"items\":[");
      Around("{\"type\":\"order.upsert_many\"," + "\"data\":{\"items\":[", Joined(DtoTexts(w, e.items)), "]}}\n");
    }
  }
}
