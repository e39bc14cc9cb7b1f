/** The append-only transaction ledger and the text queries the payment engine runs on it. */
module Ledger {
  import opened Rows
  import opened Text

  // ----- stored descriptions -----

  function ProviderName(p: Provider): string {
    match p
    case CRYPTOMUS => "CRYPTOMUS"
    case CRYPTOPAY => "CRYPTOPAY"
    case MANUAL => "MANUAL"
    case CACTUS => "CACTUS"
  }

  const MARK := "Invoice #"

  predicate IsDeposit(n: Note) {
    n.ProviderDeposit? || n.ManualDeposit?
  }

  function Head(n: Note): string
    requires IsDeposit(n)
  {
    "Пополнение через " + ProviderName(if n.ProviderDeposit? then n.provider else MANUAL) + " ("
  }

  function Tail(n: Note): string
    requires IsDeposit(n)
  {
    if n.ProviderDeposit? then ", status=" + n.status + ")" else ", approved_by=" + Dec(n.admin) + ")"
  }

  function Render(n: Note): string {
    match n
    case ProviderDeposit(_, ext, _) => Head(n) + MARK + ext + Tail(n)
    case ManualDeposit(ext, _) => Head(n) + MARK + ext + Tail(n)
    case DirectPay(ext) => "Direct Pay subscription via " + MARK + ext
    case Purchase(days) => "Покупка подписки на " + Dec(days) + " дн."
    case AutoRenewal => "Автопродление подписки на 30 дн."
    case ReferralReward(buyer) => "Бонус за активацию подписки рефералом " + Dec(buyer)
    case BonusNote(text) => text
  }

  /** The texts as they are stored. */
  lemma StoredTexts(p: Provider, ext: string, status: string, admin: nat, days: nat, buyer: nat)
    ensures var name := if p == CRYPTOMUS then "CRYPTOMUS" else if p == CRYPTOPAY then "CRYPTOPAY"
                        else if p == CACTUS then "CACTUS" else "MANUAL";
            Render(ProviderDeposit(p, ext, status))
            == ("Пополнение через " + name + " (") + "Invoice #" + ext + (", status=" + status + ")")
    ensures Render(ManualDeposit(ext, admin))
            == ("Пополнение через " + "MANUAL" + " (") + "Invoice #" + ext + (", approved_by=" + Dec(admin) + ")")
    ensures Render(DirectPay(ext)) == "Direct Pay subscription via " + "Invoice #" + ext
    ensures Render(Purchase(days)) == "Покупка подписки на " + Dec(days) + " дн."
    ensures Render(ReferralReward(buyer)) == "Бонус за активацию подписки рефералом " + Dec(buyer)
  {
  }

  // ----- queries -----

  /** `SUM(amount)` over the user's deposits whose description is LIKE `%Invoice #ext%`. */
  function Credited(ledger: seq<Transaction>, uid: nat, ext: string): int {
    if ledger == [] then 0
    else
      var t := ledger[|ledger| - 1];
      Credited(ledger[..|ledger| - 1], uid, ext)
      + if t.userId == uid && t.kind == DEPOSIT && Like(Render(t.note), "%" + MARK + ext + "%") then t.amount else 0
  }

  /** How many rows the direct-payment query returns; the source raises when there are two or more. */
  function ChargeRows(ledger: seq<Transaction>, uid: nat, ext: string): nat {
    if ledger == [] then 0
    else
      var t := ledger[|ledger| - 1];
      ChargeRows(ledger[..|ledger| - 1], uid, ext)
      + if t.userId == uid && t.kind == WITHDRAW && Render(t.note) == Render(DirectPay(ext)) then 1 else 0
  }

  // ----- the meaning of the ledger, without any text search -----

  /** Everything ever booked for a user. */
  ghost function UserTotal(ledger: seq<Transaction>, uid: nat): int {
    if ledger == [] then 0
    else
      var t := ledger[|ledger| - 1];
      UserTotal(ledger[..|ledger| - 1], uid) + if t.userId == uid then t.amount else 0
  }

  /** Everything ever deposited for an invoice. */
  ghost function Deposits(ledger: seq<Transaction>, ext: string): int {
    if ledger == [] then 0
    else
      var t := ledger[|ledger| - 1];
      Deposits(ledger[..|ledger| - 1], ext)
      + if t.kind == DEPOSIT && IsDeposit(t.note) && t.note.ext == ext then t.amount else 0
  }

  /** How many subscriptions were charged through an invoice. */
  ghost function Charges(ledger: seq<Transaction>, ext: string): nat {
    if ledger == [] then 0
    else
      var t := ledger[|ledger| - 1];
      Charges(ledger[..|ledger| - 1], ext) + if t.kind == WITHDRAW && t.note == DirectPay(ext) then 1 else 0
  }

  lemma Append(ledger: seq<Transaction>, t: Transaction)
    ensures forall uid :: UserTotal(ledger + [t], uid) == UserTotal(ledger, uid)
                                                                  + if t.userId == uid then t.amount else 0
    ensures forall ext :: Deposits(ledger + [t], ext)
                       == Deposits(ledger, ext)
                          + if t.kind == DEPOSIT && IsDeposit(t.note) && t.note.ext == ext then t.amount else 0
    ensures forall ext :: Charges(ledger + [t], ext)
                       == Charges(ledger, ext) + if t.kind == WITHDRAW && t.note == DirectPay(ext) then 1 else 0
  {
    assert (ledger + [t])[..|ledger|] == ledger;
  }

  lemma AppendCredited(ledger: seq<Transaction>, t: Transaction, uid: nat, ext: string)
    ensures var found := t.userId == uid && t.kind == DEPOSIT && Like(Render(t.note), "%" + MARK + ext + "%");
            Credited(ledger + [t], uid, ext) == Credited(ledger, uid, ext) + if found then t.amount else 0
  {
    assert (ledger + [t])[..|ledger|] == ledger;
  }

  // ----- which ids the text search can tell apart -----

  /** Ids in which only the underscore is special to LIKE and which cannot contain the marker. */
  predicate SearchableId(id: string) {
    Plain(id) && 'I' !in id
  }

  predicate WellFormedNote(n: Note) {
    IsDeposit(n) ==> SearchableId(n.ext) && (n.ProviderDeposit? ==> 'I' !in n.status)
  }

  /** The pattern of `id` fails on the text of `other` at a position no description tail can repair. */
  ghost predicate Apart(id: string, other: string) {
    exists j :: 0 <= j < |id| && j <= |other| && id[j] != '_' && id[j] != TextAt(other, j)
  }

  /** What stands at offset `j` behind the marker: the id, then the comma that ends it. */
  function TextAt(other: string, j: nat): char
    requires j <= |other|
  {
    if j < |other| then other[j] else ','
  }

  lemma HeadHasNoMark(n: Note)
    requires IsDeposit(n)
    ensures 'I' !in Head(n)
  {
    var p := if n.ProviderDeposit? then n.provider else MANUAL;
    assert 'I' !in "Пополнение через ";
    assert 'I' !in ProviderName(p) by { match p { case CRYPTOMUS => case CRYPTOPAY => case MANUAL => case CACTUS => } }
    assert 'I' !in " (";
  }

  lemma TailHasNoMark(n: Note)
    requires IsDeposit(n) && WellFormedNote(n)
    ensures 'I' !in Tail(n) && Tail(n)[0] == ','
  {
    assert 'I' !in ", status=" && 'I' !in ", approved_by=" && 'I' !in ")";
  }

  /** In a text with a single marker, the marked pattern can only match at that marker. */
  lemma MarkIsUnique(h: string, rest: string, id: string, k: nat)
    requires 'I' !in h && 'I' !in rest && MatchesAt(h + MARK + rest, k, MARK + id)
    ensures k == |h|
  {
    var text, lit := h + MARK + rest, MARK + id;
    assert lit[0] == 'I' && text[k + 0] == 'I';
  }

  lemma MatchBehindMark(h: string, rest: string, id: string)
    ensures MatchesAt(h + MARK + rest, |h|, MARK + id) <==> MatchesAt(rest, 0, id)
  {
    var text, lit := h + MARK + rest, MARK + id;
    if MatchesAt(rest, 0, id) {
      forall j | 0 <= j < |lit| ensures lit[j] == '_' || lit[j] == text[|h| + j] {
        if j >= |MARK| { assert lit[j] == id[j - |MARK|] && text[|h| + j] == rest[j - |MARK|]; }
      }
    }
    if MatchesAt(text, |h|, lit) {
      forall j | 0 <= j < |id| ensures id[j] == '_' || id[j] == rest[j] {
        assert lit[|MARK| + j] == id[j] && text[|h| + (|MARK| + j)] == rest[j];
      }
    }
  }

  lemma MarkedIsPlain(id: string)
    requires Plain(id)
    ensures Plain(MARK + id) && "%" + MARK + id + "%" == "%" + (MARK + id) + "%"
  {
    var lit := MARK + id;
    forall i | 0 <= i < |lit| ensures lit[i] != '%' && lit[i] != '\\' {
      if i >= |MARK| { assert lit[i] == id[i - |MARK|]; }
    }
  }

  /** The search pattern of `id` selects a deposit exactly when it fits right behind that deposit's marker. */
  lemma SearchIsAnchored(n: Note, id: string)
    requires IsDeposit(n) && WellFormedNote(n) && SearchableId(id)
    ensures Like(Render(n), "%" + MARK + id + "%") <==> MatchesAt(n.ext + Tail(n), 0, id)
  {
    var h, lit, rest := Head(n), MARK + id, n.ext + Tail(n);
    var text := h + MARK + rest;
    assert Render(n) == text;
    MarkedIsPlain(id);
    LikeContains(text, lit);
    HeadHasNoMark(n);
    TailHasNoMark(n);
    MatchBehindMark(h, rest, id);
    forall k: nat | MatchesAt(text, k, lit) ensures k == |h| {
      MarkIsUnique(h, rest, id, k);
    }
  }

  /** Its own id always finds a deposit; an id that is apart from it never does. */
  lemma SearchSeparates(n: Note, id: string)
    requires IsDeposit(n) && WellFormedNote(n) && SearchableId(id)
    requires id == n.ext || Apart(id, n.ext)
    ensures Like(Render(n), "%" + MARK + id + "%") <==> id == n.ext
  {
    SearchIsAnchored(n, id);
    TailHasNoMark(n);
    if id == n.ext {
      var rest := n.ext + Tail(n);
      forall j | 0 <= j < |id| ensures id[j] == rest[0 + j] {}
    } else {
      ApartMisses(id, n.ext, Tail(n));
    }
  }

  /**
   * The test is exact for ids of any length: the search of `id` selects a deposit of another one if and only if the two
   * are not apart and what `id` has beyond the other one, if it is longer, fits the text behind it.
   */
  lemma SearchConfusesExactly(n: Note, id: string)
    requires IsDeposit(n) && WellFormedNote(n) && SearchableId(id)
    ensures Like(Render(n), "%" + MARK + id + "%")
            <==> !Apart(id, n.ext) && (|id| > |n.ext| ==> MatchesAt(Tail(n), 0, id[|n.ext|..]))
  {
    SearchIsAnchored(n, id);
    TailHasNoMark(n);
    if Apart(id, n.ext) {
      ApartMisses(id, n.ext, Tail(n));
    } else if |id| > |n.ext| {
      LongerIdMatches(id, n.ext, Tail(n));
    } else {
      ShorterIdMatches(id, n.ext, Tail(n));
    }
  }

  lemma ApartMisses(id: string, other: string, tail: string)
    requires Apart(id, other) && tail != [] && tail[0] == ','
    ensures !MatchesAt(other + tail, 0, id)
  {
    var rest := other + tail;
    var j :| 0 <= j < |id| && j <= |other| && id[j] != '_' && id[j] != TextAt(other, j);
    assert j < |rest| && rest[j] == TextAt(other, j) && rest[0 + j] == rest[j];
  }

  lemma ShorterIdMatches(id: string, other: string, tail: string)
    requires !Apart(id, other) && |id| <= |other|
    ensures MatchesAt(other + tail, 0, id)
  {
    var rest := other + tail;
    forall j | 0 <= j < |id| ensures id[j] == '_' || id[j] == rest[0 + j] {
      assert rest[j] == other[j] == TextAt(other, j);
    }
  }

  lemma LongerIdMatches(id: string, other: string, tail: string)
    requires |id| > |other| && !Apart(id, other)
    ensures MatchesAt(other + tail, 0, id) <==> MatchesAt(tail, 0, id[|other|..])
  {
    var rest, over := other + tail, id[|other|..];
    if MatchesAt(rest, 0, id) {
      forall j | 0 <= j < |over| ensures over[j] == '_' || over[j] == tail[j] {
        assert over[j] == id[|other| + j] && tail[j] == rest[|other| + j];
      }
    }
    if MatchesAt(tail, 0, over) {
      forall j | 0 <= j < |id| ensures id[j] == '_' || id[j] == rest[j] {
        if j < |other| { assert rest[j] == TextAt(other, j); }
        else { assert id[j] == over[j - |other|] && rest[j] == tail[j - |other|]; }
      }
    }
  }

  /** Numeric gateway ids do collide: searching invoice 12 also finds a deposit of invoice 123. */
  lemma NumericIdsCollide()
    ensures Like(Render(ProviderDeposit(CRYPTOPAY, "123", "paid")), "%" + MARK + "12" + "%")
  {
    var n := ProviderDeposit(CRYPTOPAY, "123", "paid");
    var e, id := "123", "12";
    assert forall j :: 0 <= j < 2 ==> id[j] == TextAt(e, j);
    SearchConfusesExactly(n, id);
  }

  // ----- ids built by the shop, and ids of gateways no longer offered -----

  predicate IsHex(c: char) {
    '0' <= c <= '9' || 'a' <= c <= 'f'
  }

  predicate HexTail(h: string) {
    |h| == 20 && forall c <- h :: IsHex(c)
  }

  function ShopPrefix(p: Provider): string {
    if p == CACTUS then "cactus_" else "manual_"
  }

  /** `manual_<user>_<20 hex>` or `cactus_<user>_<20 hex>`. */
  function ShopId(p: Provider, uid: nat, hex: string): string {
    ShopPrefix(p) + Dec(uid) + "_" + hex
  }

  /** Ids handed out by the older gateways: a UUID or a number. */
  predicate GatewayId(id: string) {
    && id != []
    && (forall c <- id :: IsHex(c) || c == '-')
    && (|id| >= 4 || '0' <= id[0] <= '9')
  }

  ghost predicate KnownId(id: string, uid: nat) {
    GatewayId(id) || exists p, hex :: HexTail(hex) && id == ShopId(p, uid, hex)
  }

  lemma ShopIdIsSearchable(p: Provider, uid: nat, hex: string)
    requires HexTail(hex)
    ensures SearchableId(ShopId(p, uid, hex))
  {
    assert Plain("cactus_") && Plain("manual_") && Plain("_") && 'I' !in "cactus_" && 'I' !in "manual_" && 'I' !in "_";
  }

  lemma KnownIdIsSearchable(id: string, uid: nat)
    requires KnownId(id, uid)
    ensures SearchableId(id)
  {
    if !GatewayId(id) {
      var p, hex :| HexTail(hex) && id == ShopId(p, uid, hex);
      ShopIdIsSearchable(p, uid, hex);
    }
  }

  /** A shop id and a gateway id are apart in both directions. */
  lemma ShopApartFromGateway(p: Provider, uid: nat, hex: string, id: string)
    requires HexTail(hex) && GatewayId(id)
    ensures Apart(ShopId(p, uid, hex), id) && Apart(id, ShopId(p, uid, hex))
  {
    var shop := ShopId(p, uid, hex);
    var j := if p == CACTUS && !('0' <= id[0] <= '9') then 3 else 0;
    assert j < |id|;
    assert shop[j] == ShopPrefix(p)[j];
    assert id[j] in id;
    assert shop[j] != id[j] && shop[j] != '_' && id[j] != '_';
    assert TextAt(id, j) == id[j] && TextAt(shop, j) == shop[j];
  }

  /** A gateway id is apart from another one exactly if the other one does not begin with it. */
  lemma GatewayIdsApartExactly(id: string, other: string)
    requires GatewayId(id) && GatewayId(other)
    ensures Apart(id, other) <==> !(id <= other)
  {
    forall j | 0 <= j < |id| ensures id[j] != '_' && id[j] != ',' {
      assert id[j] in id;
    }
    if id <= other {
      assert forall j :: 0 <= j < |id| ==> id[j] == TextAt(other, j);
    } else if |id| <= |other| {
      var j :| 0 <= j < |id| && id[j] != other[j];
      assert TextAt(other, j) == other[j];
    } else {
      assert TextAt(other, |other|) == ',';
    }
  }

  /** Two different ids the shop built for one user are apart, whatever their underscores match. */
  lemma ShopIdsApart(p: Provider, q: Provider, uid: nat, h1: string, h2: string)
    requires HexTail(h1) && HexTail(h2) && ShopId(p, uid, h1) != ShopId(q, uid, h2)
    ensures Apart(ShopId(p, uid, h1), ShopId(q, uid, h2))
  {
    var a, b := ShopId(p, uid, h1), ShopId(q, uid, h2);
    var k := 7 + |Dec(uid)| + 1;
    if ShopPrefix(p) != ShopPrefix(q) {
      assert a[0] == ShopPrefix(p)[0] && b[0] == ShopPrefix(q)[0];
      assert TextAt(b, 0) == b[0] && a[0] != b[0] && a[0] != '_';
    } else {
      assert h1 != h2;
      var i :| 0 <= i < 20 && h1[i] != h2[i];
      assert a[k + i] == h1[i] && b[k + i] == h2[i];
      assert h1[i] in h1;
      assert TextAt(b, k + i) == b[k + i];
    }
  }

  lemma ShopIdApartFromKnown(p: Provider, uid: nat, hex: string, other: string)
    requires HexTail(hex) && KnownId(other, uid) && other != ShopId(p, uid, hex)
    ensures Apart(ShopId(p, uid, hex), other) && Apart(other, ShopId(p, uid, hex))
  {
    if GatewayId(other) {
      ShopApartFromGateway(p, uid, hex, other);
    } else {
      var q, h :| HexTail(h) && other == ShopId(q, uid, h);
      ShopIdsApart(p, q, uid, hex, h);
      ShopIdsApart(q, p, uid, h, hex);
    }
  }

  // ----- the text queries mean what they are meant to mean -----

  /** A deposit of the user for another invoice that the search of `ext` finds all the same. */
  ghost predicate Stray(t: Transaction, uid: nat, ext: string) {
    && t.userId == uid && t.kind == DEPOSIT && IsDeposit(t.note) && t.note.ext != ext
    && Like(Render(t.note), "%" + MARK + ext + "%")
  }

  ghost function Strays(ledger: seq<Transaction>, uid: nat, ext: string): int {
    if ledger == [] then 0
    else
      var t := ledger[|ledger| - 1];
      Strays(ledger[..|ledger| - 1], uid, ext) + if Stray(t, uid, ext) then t.amount else 0
  }

  ghost predicate NoStray(ledger: seq<Transaction>, uid: nat, ext: string) {
    forall t {:trigger Stray(t, uid, ext)} :: t in ledger ==> !Stray(t, uid, ext)
  }

  /** Deposits are positive, well described, and those of `ext` belong to its owner. */
  ghost predicate WellBooked(ledger: seq<Transaction>, uid: nat, ext: string) {
    forall t <- ledger :: t.kind == DEPOSIT ==>
                            && IsDeposit(t.note) && WellFormedNote(t.note) && t.amount > 0
                            && (t.note.ext == ext ==> t.userId == uid)
  }

  lemma PrefixIsBooked(ledger: seq<Transaction>, uid: nat, ext: string)
    requires ledger != [] && WellBooked(ledger, uid, ext)
    ensures WellBooked(ledger[..|ledger| - 1], uid, ext)
    ensures NoStray(ledger, uid, ext)
            <==> NoStray(ledger[..|ledger| - 1], uid, ext) && !Stray(ledger[|ledger| - 1], uid, ext)
  {
    var before, t := ledger[..|ledger| - 1], ledger[|ledger| - 1];
    assert ledger == before + [t];
    assert forall u :: u in ledger <==> u in before || u == t;
  }

  /**
   * What the search counts as credited are the invoice's own deposits and the strays, and it is exact without
   * those.
   */
  lemma {:induction false} CreditedExactly(ledger: seq<Transaction>, uid: nat, ext: string)
    requires SearchableId(ext) && WellBooked(ledger, uid, ext)
    ensures Credited(ledger, uid, ext) == Deposits(ledger, ext) + Strays(ledger, uid, ext)
    ensures Deposits(ledger, ext) >= 0 && Strays(ledger, uid, ext) >= 0
    ensures Credited(ledger, uid, ext) == Deposits(ledger, ext) <==> NoStray(ledger, uid, ext)
  {
    if ledger != [] {
      var t := ledger[|ledger| - 1];
      assert t in ledger;
      PrefixIsBooked(ledger, uid, ext);
      CreditedExactly(ledger[..|ledger| - 1], uid, ext);
      if t.kind == DEPOSIT && t.note.ext == ext { SearchSeparates(t.note, ext); }
    }
  }

  /** The ledger only grows, and so does what is counted as credited. */
  lemma {:induction false} CreditedGrows(was: seq<Transaction>, ledger: seq<Transaction>, uid: nat, ext: string)
    requires was <= ledger && forall t <- ledger :: t.kind == DEPOSIT ==> t.amount > 0
    ensures Credited(was, uid, ext) <= Credited(ledger, uid, ext)
    decreases |ledger|
  {
    if |was| < |ledger| {
      assert ledger[|ledger| - 1] in ledger && forall t <- ledger[..|ledger| - 1] :: t in ledger;
      CreditedGrows(was, ledger[..|ledger| - 1], uid, ext);
    } else {
      assert was == ledger;
    }
  }

  /** The three descriptions a WITHDRAW can carry are told apart by their text. */
  lemma ChargeTextIsUnique(n: Note, ext: string)
    requires n.DirectPay? || n.Purchase? || n.AutoRenewal?
    ensures Render(n) == Render(DirectPay(ext)) <==> n == DirectPay(ext)
  {
    var d := Render(DirectPay(ext));
    var prefix := "Direct Pay subscription via " + MARK;
    assert d[0] == 'D';
    match n {
      case DirectPay(e) =>
        assert Render(n)[|prefix|..] == e && d[|prefix|..] == ext;
      case Purchase(days) => assert Render(n)[0] == 'П';
      case AutoRenewal => assert Render(n)[0] == 'А';
    }
  }

  ghost predicate OwnCharges(ledger: seq<Transaction>, uid: nat, ext: string) {
    forall t <- ledger :: t.kind == WITHDRAW ==>
                            && (t.note.DirectPay? || t.note.Purchase? || t.note.AutoRenewal?)
                            && (t.note == DirectPay(ext) ==> t.userId == uid)
  }

  lemma {:induction false} ChargeRowsAreCharges(ledger: seq<Transaction>, uid: nat, ext: string)
    requires OwnCharges(ledger, uid, ext)
    ensures ChargeRows(ledger, uid, ext) == Charges(ledger, ext)
  {
    if ledger != [] {
      var t := ledger[|ledger| - 1];
      assert t in ledger;
      assert forall u <- ledger[..|ledger| - 1] :: u in ledger;
      ChargeRowsAreCharges(ledger[..|ledger| - 1], uid, ext);
      if t.kind == WITHDRAW {
        ChargeTextIsUnique(t.note, ext);
      }
    }
  }
}
