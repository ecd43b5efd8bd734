/** Which payments the reconciler accepts and which invoice a payment pays. */
module Matcher {
  import opened Decimals
  import opened Options
  import opened PaymentTables

  datatype Config = Config(assetIssuer: string, eurcIssuer: Option<string>)

  const ACCEPTED_ASSETS: seq<string> := ["USDC", "EURC", "XLM"]

  predicate IsAcceptedAsset(p: Payment, config: Config)
  {
    if p.assetType == Some("native") then "XLM" in ACCEPTED_ASSETS
    else match p.assetCode
      case None => false
      case Some(code) =>
        if code !in ACCEPTED_ASSETS then false
        else if code == "USDC" then p.assetIssuer == Some(config.assetIssuer)
        else if code == "EURC" then
          (match config.eurcIssuer
           case Some(issuer) => p.assetIssuer == Some(issuer)
           case None => true)
        else false
  }

  function PaymentCurrency(p: Payment): string
  {
    if p.assetType == Some("native") then "XLM"
    else match p.assetCode case Some(c) => c case None => ""
  }

  // ----- the muxed id carried by a destination ---------------------------------------------

  function Reverse(s: string): string
  {
    seq(|s|, i requires 0 <= i < |s| => s[|s| - 1 - i])
  }

  /** str::parse::<i64> on at most ten characters: an optional sign, then digits. */
  function ParseI64(s: string): Option<int>
    requires |s| <= 10
  {
    if s == "" then None
    else if s[0] == '-' || s[0] == '+' then
      if |s| == 1 || !Digits(s[1..]) then None
      else Some(if s[0] == '-' then -(ParseNat(s[1..]) as int) else ParseNat(s[1..]) as int)
    else if Digits(s) then Some(ParseNat(s)) else None
  }

  /** decode_muxed_id: the last ten characters, in reversed order, read as a number. */
  function DecodeMuxedId(destination: string): Option<int>
  {
    if destination == "" || destination[0] != 'M' then None
    else
      var reversed := Reverse(destination[1..]);
      ParseI64(if |reversed| <= 10 then reversed else reversed[..10])
  }

  /** The destination "M<id>" built from a decimal id decodes back to that id exactly when the
      id has at most ten digits and reads the same backwards. */
  lemma DecodeRoundTrip(id: string)
    requires Digits(id) && id != "" && id[0] != '0'
    ensures DecodeMuxedId("M" + id) == Some(ParseNat(id)) <==> |id| <= 10 && id == Reverse(id)
  {
    DecodeOfDigits(id);
    if |id| <= 10 {
      SameValueIffSame(Reverse(id), id);
    } else {
      ShorterIsLess(Reverse(id)[..10], id);
    }
  }

  lemma SameValueIffSame(a: string, b: string)
    requires Digits(a) && Digits(b) && |a| == |b|
    ensures ParseNat(a) == ParseNat(b) <==> a == b
  {
    if ParseNat(a) == ParseNat(b) { ParseNatInjective(a, b); }
  }

  lemma ShorterIsLess(a: string, b: string)
    requires Digits(a) && Digits(b) && |a| < |b| && b[0] != '0'
    ensures ParseNat(a) < ParseNat(b)
  {
    ParseNatLowerBound(b);
    Pow10Monotone(|a|, |b| - 1);
  }

  lemma DecodeOfDigits(id: string)
    requires Digits(id) && id != ""
    ensures Digits(Reverse(id))
    ensures var seen := if |id| <= 10 then Reverse(id) else Reverse(id)[..10];
            Digits(seen) && DecodeMuxedId("M" + id) == Some(ParseNat(seen))
  {
    var destination := "M" + id;
    assert destination[1..] == id;
    var seen := if |id| <= 10 then Reverse(id) else Reverse(id)[..10];
    ParseOfDigits(seen);
  }

  lemma ParseOfDigits(s: string)
    requires Digits(s) && 0 < |s| <= 10
    ensures ParseI64(s) == Some(ParseNat(s))
  {
    assert IsDigit(s[0]);
  }

  /** The alphabet of Stellar addresses. */
  predicate Base32(s: string)
  {
    forall i :: 0 <= i < |s| ==> 'A' <= s[i] <= 'Z' || '2' <= s[i] <= '7'
  }

  predicate HighDigits(s: string)
  {
    forall i :: 0 <= i < |s| ==> '2' <= s[i] <= '7'
  }

  lemma {:induction false} HighDigitsBound(s: string)
    requires HighDigits(s)
    ensures Digits(s) && 2 * (Pow10(|s|) - 1) <= 9 * ParseNat(s) <= 7 * (Pow10(|s|) - 1)
  {
    if s != "" { HighDigitsBound(s[..|s| - 1]); }
  }

  lemma ParseOfBase32(tail: string)
    requires Base32(tail) && |tail| == 10
    ensures Digits(tail) <==> HighDigits(tail)
    ensures ParseI64(tail) == if Digits(tail) then Some(ParseNat(tail)) else None
  {
    assert tail[0] != '-' && tail[0] != '+';
  }

  lemma TenHighDigits(tail: string)
    requires HighDigits(tail) && |tail| == 10
    ensures Digits(tail) && 2_222_222_222 <= ParseNat(tail) <= 7_777_777_777
  {
    HighDigitsBound(tail);
    TenDigits();
  }

  lemma TailOfBase32(s: string, r: string)
    requires Base32(s) && |s| >= 10 && |r| == |s| && forall i :: 0 <= i < |s| ==> r[i] == s[|s| - 1 - i]
    ensures Base32(r[..10])
  {
  }

  lemma DecodeIsTail(destination: string, r: string)
    requires |destination| > 10 && destination[0] == 'M' && r == Reverse(destination[1..])
    ensures DecodeMuxedId(destination) == ParseI64(r[..10])
  {
    if |r| == 10 { assert r[..10] == r; }
  }

  lemma LastTen(s: string)
    requires Base32(s) && |s| >= 10
    ensures Base32(Reverse(s)[..10]) && DecodeMuxedId("M" + s) == ParseI64(Reverse(s)[..10])
  {
    TailOfBase32(s, Reverse(s));
    assert ("M" + s)[1..] == s;
    DecodeIsTail("M" + s, Reverse(s));
  }

  /** From a muxed address only numbers of ten digits, all of them 2 to 7, are ever decoded: its last
      ten characters backwards, when they are digits. */
  lemma DecodeOfAddress(s: string)
    requires Base32(s) && |s| >= 10
    ensures var tail := Reverse(s)[..10];
      && (Digits(tail) <==> HighDigits(tail))
      && DecodeMuxedId("M" + s) == if Digits(tail) then Some(ParseNat(tail)) else None
    ensures DecodeMuxedId("M" + s).Some? ==> 2_222_222_222 <= DecodeMuxedId("M" + s).value <= 7_777_777_777
  {
    var tail := Reverse(s)[..10];
    LastTen(s);
    ParseOfBase32(tail);
    if Digits(tail) { TenHighDigits(tail); }
  }

  lemma TenDigits()
    ensures Pow10(10) == 10_000_000_000
  {
    assert Pow10(5) == 100_000;
    Pow10Add(5, 5);
  }

  /** So no payment to a muxed address ever finds, by its muxed id, an invoice of the first 131
      merchants, whose ids are base + number with a base of at most 131 blocks of 2^24. */
  lemma FirstMerchantsNeverHit(v: Invoice, p: Payment, s: string, rank: nat, number: nat)
    requires Base32(s) && |s| >= 10 && p.to == "M" + s
    requires rank <= 131 && number <= 16_777_216 && v.muxedId == rank * 16_777_216 + number
    ensures !MuxedHit(v, p)
  {
    DecodeOfAddress(s);
  }

  // ----- matching ---------------------------------------------------------------------------

  predicate MuxedHit(v: Invoice, p: Payment)
  {
    v.status == Pending && DecodeMuxedId(p.to) == Some(v.muxedId)
  }

  predicate MemoHit(v: Invoice, p: Payment)
  {
    v.status == Pending && p.memo.Some? && v.memo == p.memo
  }

  function IfCurrency(invoices: seq<Invoice>, p: Payment, i: nat): Option<nat>
    requires i < |invoices|
  {
    if invoices[i].currency == PaymentCurrency(p) then Some(i) else None
  }

  /** What match_invoice may answer. SQL leaves open which of several rows with one memo is
      fetched, so this is a relation. */
  ghost predicate MatchAllowed(invoices: seq<Invoice>, p: Payment, pick: Option<nat>)
  {
    if exists i :: 0 <= i < |invoices| && MuxedHit(invoices[i], p) then
      exists i :: 0 <= i < |invoices| && MuxedHit(invoices[i], p) && pick == IfCurrency(invoices, p, i)
    else if exists i :: 0 <= i < |invoices| && MemoHit(invoices[i], p) then
      exists i :: 0 <= i < |invoices| && MemoHit(invoices[i], p) && pick == IfCurrency(invoices, p, i)
    else
      pick == None
  }

  /** fetch_optional: the first row in table order that satisfies the WHERE clause. */
  function FetchOptional(invoices: seq<Invoice>, hit: Invoice -> bool): (r: Option<nat>)
    ensures r.Some? ==> r.value < |invoices|
  {
    if invoices == [] then None
    else
      var last := |invoices| - 1;
      match FetchOptional(invoices[..last], hit)
      case Some(i) => Some(i)
      case None => if hit(invoices[last]) then Some(last) else None
  }

  lemma {:induction false} FetchesHit(invoices: seq<Invoice>, hit: Invoice -> bool)
    ensures var r := FetchOptional(invoices, hit);
      match r
      case Some(i) => hit(invoices[i]) && forall j :: 0 <= j < i ==> !hit(invoices[j])
      case None => forall i :: 0 <= i < |invoices| ==> !hit(invoices[i])
  {
    if invoices != [] {
      var front := invoices[..|invoices| - 1];
      FetchesHit(front, hit);
      assert forall i | 0 <= i < |front| :: front[i] == invoices[i];
    }
  }

  function MatchInvoice(invoices: seq<Invoice>, p: Payment): (r: Option<nat>)
    ensures r.Some? ==> r.value < |invoices|
  {
    match FetchOptional(invoices, v => MuxedHit(v, p))
    case Some(i) => IfCurrency(invoices, p, i)
    case None =>
      match FetchOptional(invoices, v => MemoHit(v, p))
      case Some(i) => IfCurrency(invoices, p, i)
      case None => None
  }

  /** The lookup by first rows gives one of the allowed answers. */
  lemma MatchInvoiceAllowed(invoices: seq<Invoice>, p: Payment)
    ensures MatchAllowed(invoices, p, MatchInvoice(invoices, p))
  {
    FetchesHit(invoices, v => MuxedHit(v, p));
    FetchesHit(invoices, v => MemoHit(v, p));
  }

  /** A match is a pending invoice in the payment's currency. */
  lemma MatchIsPending(invoices: seq<Invoice>, p: Payment, pick: Option<nat>)
    requires MatchAllowed(invoices, p, pick) && pick.Some?
    ensures pick.value < |invoices|
    ensures invoices[pick.value].status == Pending
    ensures invoices[pick.value].currency == PaymentCurrency(p)
    ensures MuxedHit(invoices[pick.value], p) || MemoHit(invoices[pick.value], p)
  {
  }

  /** With muxed ids unique, a payment that carries a pending invoice's muxed id has one
      possible answer, and the memo is never consulted: a wrong currency is no match at all. */
  lemma MuxedMatchIsDetermined(invoices: seq<Invoice>, p: Payment, i: nat, pick: Option<nat>)
    requires forall j, k :: 0 <= j < k < |invoices| ==> invoices[j].muxedId != invoices[k].muxedId
    requires i < |invoices| && MuxedHit(invoices[i], p)
    ensures MatchAllowed(invoices, p, pick) <==>
              pick == if invoices[i].currency == PaymentCurrency(p) then Some(i) else None
  {
    assert forall j | 0 <= j < |invoices| && MuxedHit(invoices[j], p) :: j == i;
  }
}
