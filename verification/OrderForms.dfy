/** The order form: its codes, its normal form, and its price. */
module OrderForms {
  import opened Common

  type int16 = x: int | -32768 <= x <= 32767

  const RICE_SHEET: int16 := 1
  const RICE_VERMICELLI: int16 := 2
  const YI_NOODLE: int16 := 3
  const RICE: int16 := 4

  const SMALL: int16 := 1
  const MEDIUM: int16 := 2
  const LARGE: int16 := 3
  const CUSTOM: int16 := 4

  const NORMAL: int16 := 1

  const DINE_IN: int16 := 1
  const TAKEOUT: int16 := 2

  const CONTAINER: int16 := 1

  const TOGETHER: int16 := 1
  const SEPARATED: int16 := 2

  const LEAN_PORK: int16 := 1
  const LARGE_INTESTINE: int16 := 4
  const SMALL_INTESTINE: int16 := 5

  const MAX_NOTE_BYTES := 1024

  datatype OrderForm = OrderForm(
    stapleType: Option<int16>,
    size: int16,
    customSizePrice: Option<int>,
    stapleAmount: int16,
    extraStapleUnits: int16,
    friedEggs: int16,
    tofuSkewers: int16,
    meats: seq<int16>,
    greens: int16,
    scallion: int16,
    pepper: int16,
    dining: int16,
    packaging: Option<int16>,
    packagingMethod: Option<int16>,
    note: string)

  datatype FormError =
    | NegativeExtraStapleUnits | NegativeFriedEggs | NegativeTofuSkewers
    | InvalidStapleType | InvalidSize | InvalidStapleAmount | InvalidGreens | InvalidScallion | InvalidPepper
    | InvalidDining | InvalidPackaging | InvalidPackagingMethod | InvalidMeat
    | NoteTooLong | MissingCustomSizePrice | EmptyOrder

  // ---- Notes ----

  /** The runes trimmed from both ends of a note. */
  predicate IsSpace(c: char) {
    var u := c as int;
    || 0x09 <= u <= 0x0d || u == 0x20 || u == 0x85 || u == 0xa0 || u == 0x1680 || 0x2000 <= u <= 0x200a
    || u == 0x2028 || u == 0x2029 || u == 0x202f || u == 0x205f || u == 0x3000
  }

  /** They are the 25 code points that Unicode gives the property White_Space. */
  lemma SpaceCodes(c: char)
    ensures IsSpace(c) <==>
            c as int in [0x09, 0x0a, 0x0b, 0x0c, 0x0d, 0x20, 0x85, 0xa0, 0x1680, 0x2000, 0x2001, 0x2002, 0x2003,
                         0x2004, 0x2005, 0x2006, 0x2007, 0x2008, 0x2009, 0x200a, 0x2028, 0x2029, 0x202f, 0x205f,
                         0x3000]
  {
  }

  /** Bytes of one rune in UTF-8 (section 3 of RFC 3629). */
  function RuneBytes(c: char): nat {
    var u := c as int;
    if u < 0x80 then 1 else if u < 0x800 then 2 else if u < 0x10000 then 3 else 4
  }

  /** The bytes of a rune. */
  function Utf8(c: char): seq<int> {
    var u := c as int;
    match RuneBytes(c)
    case 1 => [u]
    case 2 => [0xc0 + u / 0x40, 0x80 + u % 0x40]
    case 3 => [0xe0 + u / 0x1000, 0x80 + u / 0x40 % 0x40, 0x80 + u % 0x40]
    case _ => [0xf0 + u / 0x40000, 0x80 + u / 0x1000 % 0x40, 0x80 + u / 0x40 % 0x40, 0x80 + u % 0x40]
  }

  /** The byte sequences that section 4 of RFC 3629 admits: no overlong forms and no surrogates. */
  predicate WellFormedUtf8(b: seq<int>) {
    && (forall i :: 1 <= i < |b| ==> 0x80 <= b[i] <= 0xbf)
    && (|| (|b| == 1 && 0 <= b[0] <= 0x7f)
        || (|b| == 2 && 0xc2 <= b[0] <= 0xdf)
        || (|b| == 3 && 0xe0 <= b[0] <= 0xef && (b[0] == 0xe0 ==> b[1] >= 0xa0) && (b[0] == 0xed ==> b[1] <= 0x9f))
        || (|b| == 4 && 0xf0 <= b[0] <= 0xf4 && (b[0] == 0xf0 ==> b[1] >= 0x90) && (b[0] == 0xf4 ==> b[1] <= 0x8f)))
  }

  /** Each rune is counted with as many bytes as its one admitted encoding has. */
  lemma RuneBytesAreUtf8(c: char)
    ensures WellFormedUtf8(Utf8(c)) && |Utf8(c)| == RuneBytes(c)
  {
  }

  function ByteLength(s: string): nat {
    if s == [] then 0 else RuneBytes(s[0]) + ByteLength(s[1..])
  }

  function TrimLeft(s: string): string {
    if s != [] && IsSpace(s[0]) then TrimLeft(s[1..]) else s
  }

  function TrimRight(s: string): string {
    if s != [] && IsSpace(s[|s| - 1]) then TrimRight(s[..|s| - 1]) else s
  }

  function TrimSpace(s: string): string {
    TrimRight(TrimLeft(s))
  }

  predicate Trimmed(s: string) {
    s != [] ==> !IsSpace(s[0]) && !IsSpace(s[|s| - 1])
  }

  lemma {:induction false} TrimRightKeepsHead(s: string)
    ensures TrimRight(s) <= s
    ensures TrimRight(s) != [] ==> !IsSpace(TrimRight(s)[|TrimRight(s)| - 1])
  {
    if s != [] && IsSpace(s[|s| - 1]) { TrimRightKeepsHead(s[..|s| - 1]); }
  }

  lemma {:induction false} TrimLeftStops(s: string)
    ensures TrimLeft(s) != [] ==> !IsSpace(TrimLeft(s)[0])
  {
    if s != [] && IsSpace(s[0]) { TrimLeftStops(s[1..]); }
  }

  lemma TrimSpaceTrims(s: string)
    ensures Trimmed(TrimSpace(s))
    ensures TrimSpace(s) == s <==> Trimmed(s)
  {
    TrimLeftStops(s);
    TrimRightKeepsHead(TrimLeft(s));
  }

  /** Trimming cuts space off both ends and nothing else. */
  lemma TrimCuts(s: string) returns (i: nat, j: nat)
    ensures i <= j <= |s| && TrimSpace(s) == s[i..j]
    ensures forall k :: 0 <= k < i || j <= k < |s| ==> IsSpace(s[k])
  {
    hide IsSpace;
    i := CutLeft(s);
    var n := CutRight(TrimLeft(s));
    j := i + n;
    assert forall k :: j <= k < |s| ==> s[k] == s[i..][k - i];
  }

  lemma {:induction false} CutLeft(s: string) returns (i: nat)
    ensures i <= |s| && TrimLeft(s) == s[i..] && forall k :: 0 <= k < i ==> IsSpace(s[k])
  {
    hide IsSpace;
    i := 0;
    if s != [] && IsSpace(s[0]) {
      var n := CutLeft(s[1..]);
      i := n + 1;
      assert forall k :: 1 <= k < i ==> s[k] == s[1..][k - 1];
    }
  }

  lemma {:induction false} CutRight(s: string) returns (j: nat)
    ensures j <= |s| && TrimRight(s) == s[..j] && forall k :: j <= k < |s| ==> IsSpace(s[k])
  {
    hide IsSpace;
    j := |s|;
    if s != [] && IsSpace(s[|s| - 1]) {
      j := CutRight(s[..|s| - 1]);
      assert forall k :: j <= k < |s| - 1 ==> s[k] == s[..|s| - 1][k];
    }
  }

  /** Trimming drops no rune but space. */
  lemma TrimKeepsRunes(s: string, c: char)
    requires !IsSpace(c)
    ensures c in TrimSpace(s) <==> c in s
  {
    hide IsSpace;
    TrimLeftKeeps(s, c);
    TrimRightKeeps(TrimLeft(s), c);
  }

  lemma {:induction false} TrimLeftKeeps(s: string, c: char)
    requires !IsSpace(c)
    ensures c in TrimLeft(s) <==> c in s
  {
    hide IsSpace;
    if s != [] && IsSpace(s[0]) { TrimLeftKeeps(s[1..], c); }
  }

  lemma {:induction false} TrimRightKeeps(s: string, c: char)
    requires !IsSpace(c)
    ensures c in TrimRight(s) <==> c in s
  {
    hide IsSpace;
    if s != [] && IsSpace(s[|s| - 1]) {
      TrimRightKeeps(s[..|s| - 1], c);
      assert s == s[..|s| - 1] + [s[|s| - 1]];
    }
  }

  // ---- Meats ----

  function VisibleMeats(size: int16): seq<int16> {
    if size == SMALL then [1, 2, 3, 4, 5] else [1, 2, 3, 4, 5, 6]
  }

  /** The entries of a menu that occur in `codes`, in menu order. */
  function Pick(menu: seq<int16>, codes: seq<int16>): seq<int16> {
    if menu == [] then []
    else (if menu[0] in codes then [menu[0]] else []) + Pick(menu[1..], codes)
  }

  function SelectedMeats(codes: seq<int16>, size: int16): seq<int16> {
    Pick(VisibleMeats(size), codes)
  }

  predicate StrictlyIncreasing(s: seq<int16>) {
    forall i, j :: 0 <= i < j < |s| ==> s[i] < s[j]
  }

  lemma PickCons(c: int16, menu: seq<int16>, codes: seq<int16>)
    ensures Pick([c] + menu, codes) == (if c in codes then [c] else []) + Pick(menu, codes)
  {
    assert ([c] + menu)[1..] == menu;
  }

  lemma {:induction false} PickAppend(a: seq<int16>, b: seq<int16>, codes: seq<int16>)
    ensures Pick(a + b, codes) == Pick(a, codes) + Pick(b, codes)
  {
    if a == [] {
      assert a + b == b;
    } else {
      var rest := a[1..] + b;
      assert a + b == [a[0]] + rest && (a + b)[1..] == rest;
      PickAppend(a[1..], b, codes);
      PickCons(a[0], rest, codes);
      PickCons(a[0], a[1..], codes);
      assert a == [a[0]] + a[1..];
      hide Pick;
    }
  }

  lemma {:induction false} PickMeaning(menu: seq<int16>, codes: seq<int16>)
    requires StrictlyIncreasing(menu)
    ensures forall c :: c in Pick(menu, codes) <==> c in menu && c in codes
    ensures StrictlyIncreasing(Pick(menu, codes))
  {
    if menu != [] {
      PickMeaning(menu[1..], codes);
      var rest := Pick(menu[1..], codes);
      forall j | 0 <= j < |rest| ensures menu[0] < rest[j] {
        assert rest[j] in menu[1..];
      }
    }
  }

  lemma {:induction false} IncreasingIsDetermined(a: seq<int16>, b: seq<int16>)
    requires StrictlyIncreasing(a) && StrictlyIncreasing(b)
    requires forall c :: c in a <==> c in b
    ensures a == b
  {
    HasHead(b);
    if a != [] {
      assert a[0] in b;
      assert b[0] in a;
      assert a[0] == b[0];
      forall c ensures c in a[1..] <==> c in b[1..] {
        if c in a[1..] { assert c in b && c != b[0]; }
        if c in b[1..] { assert c in a && c != a[0]; }
      }
      IncreasingIsDetermined(a[1..], b[1..]);
    }
  }

  /** The menu: kidney (6) is not offered with the small size (1). */
  lemma MenuOfSize(size: int16, c: int16)
    ensures c in VisibleMeats(size) <==> 1 <= c <= 6 && (size == 1 ==> c != 6)
  {
  }

  /** What the meat selection means: exactly the selected codes the size shows, in menu order. */
  lemma SelectedMeatsMeaning(codes: seq<int16>, size: int16)
    ensures StrictlyIncreasing(SelectedMeats(codes, size))
    ensures forall c :: c in SelectedMeats(codes, size) <==> c in codes && c in VisibleMeats(size)
    ensures SelectedMeats(codes, size) == codes
       <==> StrictlyIncreasing(codes) && forall c | c in codes :: c in VisibleMeats(size)
  {
    PickMeaning(VisibleMeats(size), codes);
    var s := SelectedMeats(codes, size);
    if StrictlyIncreasing(codes) && forall c | c in codes :: c in VisibleMeats(size) {
      IncreasingIsDetermined(s, codes);
    }
  }

  /** The selected codes that the size shows, as they were selected. */
  function Shown(codes: seq<int16>, size: int16): seq<int16> {
    if codes == [] then []
    else (if codes[0] in VisibleMeats(size) then [codes[0]] else []) + Shown(codes[1..], size)
  }

  lemma {:induction false} ShownMembers(codes: seq<int16>, size: int16)
    ensures forall c :: c in Shown(codes, size) <==> c in codes && c in VisibleMeats(size)
  {
    hide VisibleMeats;
    if codes != [] { ShownMembers(codes[1..], size); }
  }

  /** The order of the selection survives exactly when it is menu order without repetitions. */
  lemma SelectionOrderKeptIff(codes: seq<int16>, size: int16)
    ensures SelectedMeats(codes, size) == Shown(codes, size) <==> StrictlyIncreasing(Shown(codes, size))
  {
    hide SelectedMeats, Shown, VisibleMeats;
    SelectedMeatsMeaning(codes, size);
    ShownMembers(codes, size);
    if StrictlyIncreasing(Shown(codes, size)) {
      IncreasingIsDetermined(SelectedMeats(codes, size), Shown(codes, size));
    }
  }

  /** Selecting liver before lean pork yields lean pork before liver. */
  lemma SelectionOrderLost()
    ensures Shown([2, 1], SMALL) == [2, 1] && SelectedMeats([2, 1], SMALL) == [1, 2]
  {
    hide SelectedMeats, Shown;
    var codes: seq<int16> := [2, 1];
    var last: seq<int16>, none: seq<int16> := [1], [];
    ShownCons(2, last, SMALL);
    ShownCons(1, none, SMALL);
    assert codes == [2] + last && last == [1] + none;
    SelectedMeatsMeaning(codes, SMALL);
    IncreasingIsDetermined(SelectedMeats(codes, SMALL), [1, 2]);
  }

  lemma ShownCons(c: int16, codes: seq<int16>, size: int16)
    ensures Shown([c] + codes, size) == (if c in VisibleMeats(size) then [c] else []) + Shown(codes, size)
    ensures Shown([], size) == []
  {
    assert ([c] + codes)[1..] == codes;
  }

  method NormalizeSelectedMeatCodes(codes: seq<int16>, size: int16) returns (normalized: seq<int16>)
    ensures normalized == SelectedMeats(codes, size)
  {
    var allowed := VisibleMeats(size);
    var selected: set<int16> := {};
    for i := 0 to |codes|
      invariant forall c :: c in selected <==> c in codes[..i]
    {
      selected := selected + {codes[i]};
    }
    normalized := [];
    for i := 0 to |allowed|
      invariant normalized == Pick(allowed[..i], codes)
    {
      assert allowed[..i + 1] == allowed[..i] + [allowed[i]];
      PickAppend(allowed[..i], [allowed[i]], codes);
      if allowed[i] in selected {
        normalized := normalized + [allowed[i]];
      }
    }
    assert allowed[..|allowed|] == allowed;
  }

  // ---- Normal form ----

  predicate ValidCode(c: int16, last: int16) { 1 <= c <= last }

  predicate ValidOptional(c: Option<int16>, last: int16) { c.Some? ==> ValidCode(c.value, last) }

  predicate ValidCodes(f: OrderForm) {
    && 0 <= f.extraStapleUnits && 0 <= f.friedEggs && 0 <= f.tofuSkewers
    && ValidOptional(f.stapleType, 4) && ValidCode(f.size, 4)
    && ValidCode(f.stapleAmount, 4) && ValidCode(f.greens, 4) && ValidCode(f.scallion, 4) && ValidCode(f.pepper, 4)
    && ValidCode(f.dining, 2) && ValidOptional(f.packaging, 2) && ValidOptional(f.packagingMethod, 2)
    && (forall c | c in f.meats :: ValidCode(c, 6))
  }

  function CodeError(f: OrderForm): (r: Option<FormError>)
    ensures r.None? <==> ValidCodes(f)
  {
    if f.extraStapleUnits < 0 then Some(NegativeExtraStapleUnits)
    else if f.friedEggs < 0 then Some(NegativeFriedEggs)
    else if f.tofuSkewers < 0 then Some(NegativeTofuSkewers)
    else if !ValidOptional(f.stapleType, 4) then Some(InvalidStapleType)
    else if !ValidCode(f.size, 4) then Some(InvalidSize)
    else if !ValidCode(f.stapleAmount, 4) then Some(InvalidStapleAmount)
    else if !ValidCode(f.greens, 4) then Some(InvalidGreens)
    else if !ValidCode(f.scallion, 4) then Some(InvalidScallion)
    else if !ValidCode(f.pepper, 4) then Some(InvalidPepper)
    else if !ValidCode(f.dining, 2) then Some(InvalidDining)
    else if !ValidOptional(f.packaging, 2) then Some(InvalidPackaging)
    else if !ValidOptional(f.packagingMethod, 2) then Some(InvalidPackagingMethod)
    else if exists c | c in f.meats :: !ValidCode(c, 6) then Some(InvalidMeat)
    else None
  }

  function NormalSize(f: OrderForm): int16 {
    if f.stapleType == Some(RICE) && f.size == SMALL then MEDIUM else f.size
  }

  /** The normalized form of accepted input. */
  function Canonical(f: OrderForm): OrderForm {
    var size := NormalSize(f);
    f.(note := TrimSpace(f.note),
       size := size,
       customSizePrice := if size == CUSTOM then f.customSizePrice else None,
       stapleAmount := if f.stapleType.None? then NORMAL else f.stapleAmount,
       extraStapleUnits := if f.stapleType == Some(YI_NOODLE) then f.extraStapleUnits else 0,
       meats := SelectedMeats(f.meats, size),
       packaging :=
         if f.dining == DINE_IN then None else if f.packaging.None? then Some(CONTAINER) else f.packaging,
       packagingMethod :=
         if f.dining == DINE_IN then None
         else if f.packagingMethod.None? then Some(if f.stapleType == Some(RICE) then SEPARATED else TOGETHER)
         else f.packagingMethod)
  }

  function Normalized(f: OrderForm): Result<OrderForm, FormError> {
    var bad := CodeError(f);
    if bad.Some? then Failure(bad.value)
    else if ByteLength(TrimSpace(f.note)) > MAX_NOTE_BYTES then Failure(NoteTooLong)
    else if NormalSize(f) == CUSTOM && (f.customSizePrice.None? || f.customSizePrice.value <= 0) then
      Failure(MissingCustomSizePrice)
    else if f.stapleType.None? && SelectedMeats(f.meats, NormalSize(f)) == [] then Failure(EmptyOrder)
    else Success(Canonical(f))
  }

  /** Normalization as the service runs it: validate, then rewrite one field after another. */
  method Normalize(f: OrderForm) returns (r: Result<OrderForm, FormError>)
    ensures r == Normalized(f)
  {
    var bad := CodeError(f);
    if bad.Some? { return Failure(bad.value); }
    var normalized := f.(note := TrimSpace(f.note));
    if ByteLength(normalized.note) > MAX_NOTE_BYTES { return Failure(NoteTooLong); }
    if normalized.stapleType == Some(RICE) && normalized.size == SMALL {
      normalized := normalized.(size := MEDIUM);
    }
    if normalized.size == CUSTOM {
      if normalized.customSizePrice.None? || normalized.customSizePrice.value <= 0 {
        return Failure(MissingCustomSizePrice);
      }
    } else {
      normalized := normalized.(customSizePrice := None);
    }
    if normalized.stapleType.None? {
      normalized := normalized.(stapleAmount := NORMAL);
    }
    if normalized.stapleType != Some(YI_NOODLE) {
      normalized := normalized.(extraStapleUnits := 0);
    }
    var meats := NormalizeSelectedMeatCodes(normalized.meats, normalized.size);
    normalized := normalized.(meats := meats);
    if normalized.dining == DINE_IN {
      normalized := normalized.(packaging := None, packagingMethod := None);
    } else {
      if normalized.packaging.None? {
        normalized := normalized.(packaging := Some(CONTAINER));
      }
      if normalized.packagingMethod.None? {
        var method' := TOGETHER;
        if normalized.stapleType == Some(RICE) { method' := SEPARATED; }
        normalized := normalized.(packagingMethod := Some(method'));
      }
    }
    if normalized.stapleType.None? && normalized.meats == [] { return Failure(EmptyOrder); }
    return Success(normalized);
  }

  /** The forms an order may be stored with, described without running the normalizer. */
  predicate NormalForm(g: OrderForm) {
    && ValidCodes(g)
    && Trimmed(g.note) && ByteLength(g.note) <= MAX_NOTE_BYTES
    && !(g.stapleType == Some(RICE) && g.size == SMALL)
    && (g.size == CUSTOM <==> g.customSizePrice.Some?)
    && (g.customSizePrice.Some? ==> g.customSizePrice.value > 0)
    && (g.stapleType.None? ==> g.stapleAmount == NORMAL)
    && (g.stapleType != Some(YI_NOODLE) ==> g.extraStapleUnits == 0)
    && StrictlyIncreasing(g.meats) && (forall c | c in g.meats :: c in VisibleMeats(g.size))
    && (g.dining == DINE_IN <==> g.packaging.None?)
    && (g.dining == DINE_IN <==> g.packagingMethod.None?)
    && (g.stapleType.Some? || g.meats != [])
  }

  /** The inputs the normalizer accepts. */
  predicate Acceptable(f: OrderForm) {
    && ValidCodes(f)
    && ByteLength(TrimSpace(f.note)) <= MAX_NOTE_BYTES
    && (f.size == CUSTOM ==> f.customSizePrice.Some? && f.customSizePrice.value > 0)
    && (f.stapleType.Some? || exists c | c in f.meats :: c in VisibleMeats(f.size))
  }

  /** Normalization accepts exactly the acceptable inputs, and what it yields is a normal form
      that keeps every choice the customer made that the menu allows. */
  lemma NormalizeMeaning(f: OrderForm)
    ensures Normalized(f).Success? <==> Acceptable(f)
    ensures Normalized(f).Success? ==>
              var g := Normalized(f).value;
              && NormalForm(g)
              && g.stapleType == f.stapleType && g.dining == f.dining
              && g.friedEggs == f.friedEggs && g.tofuSkewers == f.tofuSkewers
              && g.greens == f.greens && g.scallion == f.scallion && g.pepper == f.pepper
              && g.note == TrimSpace(f.note)
              && g.size == (if f.stapleType == Some(4) && f.size == 1 then 2 else f.size)
              && g.customSizePrice == (if f.size == 4 then f.customSizePrice else None)
              && g.stapleAmount == (if f.stapleType.None? then 1 else f.stapleAmount)
              && g.extraStapleUnits == (if f.stapleType == Some(3) then f.extraStapleUnits else 0)
              && (forall c :: c in g.meats <==> c in f.meats && c in VisibleMeats(g.size))
              && (f.dining != DINE_IN && f.packaging.Some? ==> g.packaging == f.packaging)
              && (f.dining != DINE_IN && f.packagingMethod.Some? ==> g.packagingMethod == f.packagingMethod)
              && (f.dining == 1 ==> g.packaging.None? && g.packagingMethod.None?)
              && (f.dining == 2 && f.packaging.None? ==> g.packaging == Some(1))
              && (f.dining == 2 && f.packagingMethod.None? ==>
                    g.packagingMethod == Some(if f.stapleType == Some(4) then 2 else 1))
  {
    TrimSpaceTrims(f.note);
    var s := SelectedMeats(f.meats, NormalSize(f));
    SelectedMeatsMeaning(f.meats, NormalSize(f));
    if f.stapleType.None? {
      if s != [] { assert s[0] in f.meats && s[0] in VisibleMeats(f.size); }
    }
  }

  /** The position of an error among the checks. */
  function Rank(e: FormError): nat {
    match e
    case NegativeExtraStapleUnits => 0
    case NegativeFriedEggs => 1
    case NegativeTofuSkewers => 2
    case InvalidStapleType => 3
    case InvalidSize => 4
    case InvalidStapleAmount => 5
    case InvalidGreens => 6
    case InvalidScallion => 7
    case InvalidPepper => 8
    case InvalidDining => 9
    case InvalidPackaging => 10
    case InvalidPackagingMethod => 11
    case InvalidMeat => 12
    case NoteTooLong => 13
    case MissingCustomSizePrice => 14
    case EmptyOrder => 15
  }

  /** What is wrong with a form that deserves an error, each on its own. */
  predicate Fails(f: OrderForm, e: FormError) {
    match e
    case NegativeExtraStapleUnits => f.extraStapleUnits < 0
    case NegativeFriedEggs => f.friedEggs < 0
    case NegativeTofuSkewers => f.tofuSkewers < 0
    case InvalidStapleType => f.stapleType.Some? && f.stapleType.value !in [1, 2, 3, 4]
    case InvalidSize => f.size !in [1, 2, 3, 4]
    case InvalidStapleAmount => f.stapleAmount !in [1, 2, 3, 4]
    case InvalidGreens => f.greens !in [1, 2, 3, 4]
    case InvalidScallion => f.scallion !in [1, 2, 3, 4]
    case InvalidPepper => f.pepper !in [1, 2, 3, 4]
    case InvalidDining => f.dining !in [1, 2]
    case InvalidPackaging => f.packaging.Some? && f.packaging.value !in [1, 2]
    case InvalidPackagingMethod => f.packagingMethod.Some? && f.packagingMethod.value !in [1, 2]
    case InvalidMeat => exists c | c in f.meats :: c !in [1, 2, 3, 4, 5, 6]
    case NoteTooLong => ByteLength(TrimSpace(f.note)) > 1024
    case MissingCustomSizePrice => f.size == 4 && (f.customSizePrice.None? || f.customSizePrice.value <= 0)
    case EmptyOrder => f.stapleType.None? && forall c | c in f.meats :: c !in [1, 2, 3, 4, 5] && (f.size == 1 || c != 6)
  }

  /** The first failure wins: normalization reports an error exactly when the form fails its check and no
      earlier one. */
  lemma FirstFailureWins(f: OrderForm, e: FormError)
    ensures Normalized(f) == Failure(e) <==> Fails(f, e) && forall e': FormError | Rank(e') < Rank(e) :: !Fails(f, e')
  {
    hide Normalized, Fails, Rank;
    if Normalized(f) == Failure(e) {
      ReportedFails(f, e);
      forall e': FormError | Rank(e') < Rank(e) ensures !Fails(f, e') { EarlierPass(f, e, e'); }
    }
    if Fails(f, e) && forall e': FormError | Rank(e') < Rank(e) :: !Fails(f, e') {
      FailingIsReported(f, e);
      ReportedFails(f, Normalized(f).error);
      RanksDiffer(Normalized(f).error, e);
    }
  }

  lemma RanksDiffer(a: FormError, b: FormError)
    ensures Rank(a) == Rank(b) ==> a == b
  {
  }

  /** Whether anything is ordered. */
  lemma EmptyIff(f: OrderForm)
    ensures SelectedMeats(f.meats, NormalSize(f)) == [] && f.stapleType.None? <==> Fails(f, EmptyOrder)
  {
    var s := SelectedMeats(f.meats, NormalSize(f));
    hide SelectedMeats;
    SelectedMeatsMeaning(f.meats, NormalSize(f));
    if s != [] { assert s[0] in s; }
  }

  lemma CodeReported(f: OrderForm, e: FormError)
    requires CodeError(f) == Some(e)
    ensures Fails(f, e)
  {
  }

  lemma ReportedFails(f: OrderForm, e: FormError)
    requires Normalized(f) == Failure(e)
    ensures Fails(f, e)
  {
    hide SelectedMeats, TrimSpace, ByteLength, CodeError, VisibleMeats;
    EmptyIff(f);
    if CodeError(f).Some? { CodeReported(f, e); }
  }

  lemma EarlierPass(f: OrderForm, e: FormError, e': FormError)
    requires Normalized(f) == Failure(e) && Rank(e') < Rank(e)
    ensures !Fails(f, e')
  {
    hide SelectedMeats, TrimSpace, ByteLength;
  }

  lemma FailingIsReported(f: OrderForm, e: FormError)
    requires Fails(f, e)
    ensures Normalized(f).Failure? && Rank(Normalized(f).error) <= Rank(e)
  {
    hide SelectedMeats, TrimSpace, ByteLength;
    EmptyIff(f);
  }

  /** The normal forms are exactly the fixed points of normalization, so normalizing twice
      changes nothing. */
  lemma NormalFormsAreFixedPoints(g: OrderForm)
    ensures Normalized(g) == Success(g) <==> NormalForm(g)
    ensures Normalized(g).Success? ==> Normalized(Normalized(g).value) == Normalized(g)
  {
    if NormalForm(g) { FixedPoint(g); }
    NormalizeMeaning(g);
    if Normalized(g).Success? { FixedPoint(Normalized(g).value); }
  }

  lemma FixedPoint(g: OrderForm)
    requires NormalForm(g)
    ensures Normalized(g) == Success(g)
  {
    TrimSpaceTrims(g.note);
    SelectedMeatsMeaning(g.meats, g.size);
    assert Canonical(g) == g;
  }

  // ---- Price ----

  function BasePrice(f: OrderForm): int {
    if f.size == CUSTOM then
      if f.customSizePrice.None? || f.customSizePrice.value < 0 then 0 else f.customSizePrice.value
    else if f.stapleType == Some(RICE) then
      if f.size == LARGE then 2000 else 1500
    else if f.stapleType == Some(YI_NOODLE) then
      if f.size == SMALL then 1100 else if f.size == MEDIUM then 1300 else if f.size == LARGE then 1600 else 0
    else
      if f.size == SMALL then 1000 else if f.size == MEDIUM then 1200 else if f.size == LARGE then 1500 else 0
  }

  function ContainerPrice(f: OrderForm): int {
    if f.dining == TAKEOUT && f.packaging == Some(CONTAINER) then 50 else 0
  }

  function TotalPrice(f: OrderForm): int {
    BasePrice(f)
    + (if f.stapleType == Some(YI_NOODLE) then f.extraStapleUnits * 300 else 0)
    + f.friedEggs * 200 + f.tofuSkewers * 200
    + ContainerPrice(f)
  }

  /** Accumulates the base price and the surcharges. */
  method CalculateTotalPriceCents(f: OrderForm) returns (total: int)
    ensures total == TotalPrice(f)
  {
    total := BasePrice(f);
    if f.stapleType == Some(YI_NOODLE) {
      total := total + f.extraStapleUnits * 300;
    }
    total := total + f.friedEggs * 200;
    total := total + f.tofuSkewers * 200;
    if f.dining == TAKEOUT && f.packaging == Some(CONTAINER) {
      total := total + 50;
    }
  }

  const MAX_INT32 := 0x7fff_ffff

  /** The price list, in cents. */
  lemma PriceList(f: OrderForm)
    requires 1 <= f.size <= 4
    ensures f.size == 4 && f.customSizePrice.Some? && f.customSizePrice.value >= 0 ==>
              BasePrice(f) == f.customSizePrice.value
    ensures f.size == 4 && (f.customSizePrice.None? || f.customSizePrice.value < 0) ==> BasePrice(f) == 0
    ensures f.size < 4 && f.stapleType == Some(4) ==> BasePrice(f) == [1500, 1500, 2000][f.size - 1]
    ensures f.size < 4 && f.stapleType == Some(3) ==> BasePrice(f) == [1100, 1300, 1600][f.size - 1]
    ensures f.size < 4 && f.stapleType !in [Some(3), Some(4)] ==> BasePrice(f) == [1000, 1200, 1500][f.size - 1]
    ensures TotalPrice(f) - BasePrice(f) ==
            (if f.stapleType == Some(3) then 300 * f.extraStapleUnits as int else 0)
            + 200 * (f.friedEggs as int + f.tofuSkewers as int)
            + (if f.dining == 2 && f.packaging == Some(1) then 50 else 0)
  {
  }

  /** A stored form always costs something, and within the column width of the database the
      64-bit sum never wraps around. */
  lemma PriceOfNormalForm(g: OrderForm)
    requires NormalForm(g)
    ensures TotalPrice(g) > 0
    ensures g.customSizePrice.Some? && g.customSizePrice.value <= MAX_INT32 ==> TotalPrice(g) < 0x7fff_ffff_ffff_ffff
    ensures g.customSizePrice.None? ==> TotalPrice(g) <= 2000 + 32767 * 700 + 50
  {
  }

  /** Normalizing never changes what a form costs, except that takeout with no packaging named
      is charged for the container it is given. */
  lemma NormalizingAndPrice(f: OrderForm)
    requires Normalized(f).Success?
    ensures var g := Normalized(f).value;
            TotalPrice(g) == TotalPrice(f) + (if f.dining == TAKEOUT && f.packaging.None? then 50 else 0)
  {
  }
}
