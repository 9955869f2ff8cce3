/** Conversion between payments and ISO 20022 pacs.008.001.08 documents. */
module Iso20022 {
  import opened Domain
  import opened Amounts

  // ------------------------------------------------------------ dates

  datatype Date = Date(year: nat, month: nat, day: nat)

  /** A wall-clock time: a day and the nanoseconds since its midnight. */
  datatype Time = Time(date: Date, clock: nat)

  /** The zero time.Time: 1 January of year 1, midnight. */
  const ZERO_TIME: Time := Time(Date(1, 1, 1), 0)

  predicate IsLeap(y: nat) {
    y % 4 == 0 && (y % 100 != 0 || y % 400 == 0)
  }

  function DaysIn(month: nat, year: nat): nat {
    if month == 2 then if IsLeap(year) then 29 else 28
    else if month in {4, 6, 9, 11} then 30
    else 31
  }

  predicate ValidDate(d: Date) {
    1 <= d.month <= 12 && 1 <= d.day <= DaysIn(d.month, d.year)
  }

  function DigitChar(n: nat): char
    requires n < 10
  {
    "0123456789"[n]
  }

  function DigitValue(c: char): Option<nat> {
    if '0' <= c <= '9' then Some((c as int - '0' as int) as nat) else None
  }

  /** n in decimal with at least `width` digits. */
  function Pad(n: nat, width: nat): (s: string)
    ensures |s| >= width
    decreases n + width
  {
    if n == 0 && width == 0 then ""
    else Pad(n / 10, if width == 0 then 0 else width - 1) + [DigitChar(n % 10)]
  }

  /** The layout "2006-01-02". */
  function FormatDate(d: Date): string {
    Pad(d.year, 4) + "-" + Pad(d.month, 2) + "-" + Pad(d.day, 2)
  }

  function ParseNumber(s: string): Option<nat> {
    if s == "" then Some(0)
    else
      match (ParseNumber(s[..|s| - 1]), DigitValue(s[|s| - 1]))
      case (Some(high), Some(low)) => Some(10 * high + low)
      case _ => None
  }

  /** time.Parse with the layout "2006-01-02": exactly four, two and two digits, and a day that exists. */
  function ParseDate(s: string): Option<Date> {
    if |s| != 10 || s[4] != '-' || s[7] != '-' then None
    else
      match (ParseNumber(s[..4]), ParseNumber(s[5..7]), ParseNumber(s[8..]))
      case (Some(y), Some(m), Some(d)) => if ValidDate(Date(y, m, d)) then Some(Date(y, m, d)) else None
      case _ => None
  }

  lemma {:induction false} ParsePad(n: nat, width: nat)
    ensures ParseNumber(Pad(n, width)) == Some(n)
    decreases n + width
  {
    if n != 0 || width != 0 {
      var high := if width == 0 then 0 else width - 1;
      ParsePad(n / 10, high);
      ParseAppend(Pad(n / 10, high), n / 10, n % 10);
    }
  }

  lemma DigitRoundTrip(n: nat)
    requires n < 10
    ensures DigitValue(DigitChar(n)) == Some(n)
  {
  }

  /** One more digit. */
  lemma {:induction false} ParseAppend(s: string, high: nat, low: nat)
    requires low < 10 && ParseNumber(s) == Some(high)
    ensures ParseNumber(s + [DigitChar(low)]) == Some(10 * high + low)
  {
    DigitRoundTrip(low);
    assert (s + [DigitChar(low)])[..|s|] == s;
  }

  lemma {:induction false} PadWidth2(n: nat)
    ensures n < 100 ==> |Pad(n, 2)| == 2
  {
    assert n < 100 ==> Pad(n / 10 / 10, 0) == "" && |Pad(n / 10, 1)| == 1;
  }

  lemma {:induction false} PadWidth4(n: nat)
    ensures |Pad(n, 4)| == 4 <==> n < 10000
  {
    assert |Pad(n, 4)| == 4 + |Pad(n / 10 / 10 / 10 / 10, 0)| by {
      assert |Pad(n, 4)| == |Pad(n / 10, 3)| + 1;
      assert |Pad(n / 10, 3)| == |Pad(n / 10 / 10, 2)| + 1;
      assert |Pad(n / 10 / 10, 2)| == |Pad(n / 10 / 10 / 10, 1)| + 1;
      assert |Pad(n / 10 / 10 / 10, 1)| == |Pad(n / 10 / 10 / 10 / 10, 0)| + 1;
    }
  }

  /** The three fields of a text of ten characters with dashes in between. */
  lemma FieldsOf(y: string, m: string, d: string)
    requires |y| == 4 && |m| == 2 && |d| == 2
    ensures var s := y + "-" + m + "-" + d;
            |s| == 10 && s[4] == '-' && s[7] == '-' && s[..4] == y && s[5..7] == m && s[8..] == d
  {
  }

  lemma FormatLength(d: Date)
    ensures |FormatDate(d)| == |Pad(d.year, 4)| + |Pad(d.month, 2)| + |Pad(d.day, 2)| + 2
  {
  }

  /** A date of a four-digit year is written as year, month and day, with dashes between. */
  lemma DateFields(d: Date)
    requires ValidDate(d) && d.year < 10000
    ensures var s := FormatDate(d);
            && |s| == 10 && s[4] == '-' && s[7] == '-'
            && ParseNumber(s[..4]) == Some(d.year)
            && ParseNumber(s[5..7]) == Some(d.month)
            && ParseNumber(s[8..]) == Some(d.day)
  {
    PadWidth4(d.year);
    PadWidth2(d.month);
    PadWidth2(d.day);
    FieldsOf(Pad(d.year, 4), Pad(d.month, 2), Pad(d.day, 2));
    ParsePad(d.year, 4);
    ParsePad(d.month, 2);
    ParsePad(d.day, 2);
  }

  /** A formatted date parses back to itself, exactly when its year has at most four digits. */
  lemma DateRoundTrip(d: Date)
    requires ValidDate(d)
    ensures ParseDate(FormatDate(d)) == if d.year < 10000 then Some(d) else None
  {
    if d.year < 10000 {
      DateFields(d);
    } else {
      PadWidth4(d.year);
      PadWidth2(d.month);
      PadWidth2(d.day);
      FormatLength(d);
    }
  }

  // ------------------------------------------------------------ documents

  datatype Amount = Amount(value: real, ccy: string)
  datatype Agent = Agent(bicfi: string, othr: Option<string>)
  datatype Account = Account(iban: string, othr: Option<Option<string>>)
  datatype CreditTransfer = CreditTransfer(
    instrId: string, endToEndId: string, txId: string, uetr: string,
    categoryPurpose: Option<Option<string>>,
    amount: Amount, settlementDate: string, chargeBearer: string,
    debtor: string, debtorAccount: Account, debtorAgent: Agent,
    creditorAgent: Agent, creditor: string, creditorAccount: Account,
    purpose: Option<string>, remittance: Option<string>)
  datatype GroupHeader = GroupHeader(
    msgId: string, created: string, txCount: string, total: Option<Amount>, settlementDate: string,
    settlementMethod: Option<string>)
  datatype Document = Document(header: GroupHeader, transfers: seq<CreditTransfer>)

  datatype PaymentData = PaymentData(
    id: string, endToEndId: string, uetr: string, instrId: string,
    sourceBIC: string, destBIC: string, sourceAccount: string, destAccount: string,
    debtorName: string, creditorName: string, amount: int, currency: string,
    chargeBearer: string, settlementDate: Time, purposeCode: string, remittanceInfo: string,
    status: string, createdAt: Time)

  function AgentBIC(a: Agent): string {
    if a.bicfi != "" then a.bicfi else match a.othr case Some(id) => id case None => ""
  }

  function AccountId(a: Account): string {
    if a.iban != "" then a.iban
    else match a.othr case Some(Some(id)) => id case _ => ""
  }

  function PurposeOf(t: CreditTransfer): string {
    match t.purpose
    case Some(cd) => cd
    case None => match t.categoryPurpose case Some(Some(cd)) => cd case _ => ""
  }

  function TextOf(t: Option<string>): string {
    match t case Some(s) => s case None => ""
  }

  datatype Layout = DateOnly | DateTime

  /** `stamp` stands for time.Parse with the date-time layout. */
  function ParseWith(layout: Layout, s: string, stamp: string -> Option<Time>): Option<Time> {
    match layout
    case DateOnly => (match ParseDate(s) case Some(d) => Some(Time(d, 0)) case None => None)
    case DateTime => stamp(s)
  }

  /** The first layout that fits decides; an unreadable or missing date is the zero time. */
  function SettlementDateOf(s: string, stamp: string -> Option<Time>): Time {
    if s == "" then ZERO_TIME
    else match ParseWith(DateOnly, s, stamp)
         case Some(t) => t
         case None => (match ParseWith(DateTime, s, stamp) case Some(t) => t case None => ZERO_TIME)
  }

  function DataOf(header: GroupHeader, t: CreditTransfer, fl: real -> real, stamp: string -> Option<Time>): PaymentData
  {
    PaymentData("", t.endToEndId, t.uetr, t.instrId,
                AgentBIC(t.debtorAgent), AgentBIC(t.creditorAgent),
                AccountId(t.debtorAccount), AccountId(t.creditorAccount),
                t.debtor, t.creditor, AmountToMinorUnits(t.amount.value, fl), t.amount.ccy,
                t.chargeBearer, SettlementDateOf(header.settlementDate, stamp), PurposeOf(t), TextOf(t.remittance),
                "", ZERO_TIME)
  }

  /** Only the first transfer is read; a document without one is an error. */
  function FromDocument(doc: Document, fl: real -> real, stamp: string -> Option<Time>): Option<PaymentData> {
    if doc.transfers == [] then None else Some(DataOf(doc.header, doc.transfers[0], fl, stamp))
  }

  /** The preferred identification, or the other one if that is empty, or nothing. */
  predicate Identifies(id: string, preferred: string, other: Option<string>) {
    && (preferred != "" ==> id == preferred)
    && (preferred == "" && other.Some? ==> id == other.value)
    && (preferred == "" && other.None? ==> id == "")
  }

  /** Who pays whom from where to where, as any transfer says it. */
  predicate PartiesRead(d: PaymentData, t: CreditTransfer) {
    && Identifies(d.sourceBIC, t.debtorAgent.bicfi, t.debtorAgent.othr)
    && Identifies(d.destBIC, t.creditorAgent.bicfi, t.creditorAgent.othr)
    && Identifies(d.sourceAccount, t.debtorAccount.iban, Flat(t.debtorAccount.othr))
    && Identifies(d.destAccount, t.creditorAccount.iban, Flat(t.creditorAccount.othr))
    && d.debtorName == t.debtor && d.creditorName == t.creditor
  }

  function Flat(text: Option<Option<string>>): Option<string> {
    match text case Some(inner) => inner case None => None
  }

  /** The other fields of any transfer; the purpose comes first and the category purpose stands in for it. */
  predicate FieldsRead(d: PaymentData, t: CreditTransfer) {
    && d.endToEndId == t.endToEndId && d.uetr == t.uetr && d.instrId == t.instrId
    && d.currency == t.amount.ccy && d.chargeBearer == t.chargeBearer
    && (t.purpose.Some? ==> d.purposeCode == t.purpose.value)
    && (t.purpose.None? && Flat(t.categoryPurpose).Some? ==> d.purposeCode == Flat(t.categoryPurpose).value)
    && (t.purpose.None? && Flat(t.categoryPurpose).None? ==> d.purposeCode == "")
    && (t.remittance.Some? ==> d.remittanceInfo == t.remittance.value)
    && (t.remittance.None? ==> d.remittanceInfo == "")
    && d.id == "" && d.status == "" && d.createdAt == ZERO_TIME
  }

  /** A date is read in either layout, the date-only one first, and as the zero time if neither fits. */
  predicate DateRead(date: Time, text: string, stamp: string -> Option<Time>) {
    && (text == "" ==> date == ZERO_TIME)
    && (text != "" && ParseDate(text).Some? ==> date == Time(ParseDate(text).value, 0))
    && (text != "" && ParseDate(text).None? && stamp(text).Some? ==> date == stamp(text).value)
    && (text != "" && ParseDate(text).None? && stamp(text).None? ==> date == ZERO_TIME)
  }

  /** What is read of any document: its first transfer, or nothing if it has none. */
  predicate IsRead(data: Option<PaymentData>, doc: Document, fl: real -> real, stamp: string -> Option<Time>) {
    && (data.None? <==> doc.transfers == [])
    && (data.Some? ==>
          && PartiesRead(data.value, doc.transfers[0]) && FieldsRead(data.value, doc.transfers[0])
          && data.value.amount == AmountToMinorUnits(doc.transfers[0].amount.value, fl)
          && DateRead(data.value.settlementDate, doc.header.settlementDate, stamp))
  }

  /** The reading of a document is determined by that. */
  lemma ReadingIsUnique(data: Option<PaymentData>, doc: Document, fl: real -> real, stamp: string -> Option<Time>)
    ensures IsRead(data, doc, fl, stamp) <==> data == FromDocument(doc, fl, stamp)
  {
  }

  method FromPacs008(doc: Document, fl: real -> real, stamp: string -> Option<Time>) returns (data: Option<PaymentData>)
    ensures data == FromDocument(doc, fl, stamp)
    ensures IsRead(data, doc, fl, stamp)
  {
    ReadingIsUnique(FromDocument(doc, fl, stamp), doc, fl, stamp);
    if |doc.transfers| == 0 {
      return None;
    }
    var t := doc.transfers[0];
    var d := DataOf(doc.header.(settlementDate := ""), t, fl, stamp);
    var text := doc.header.settlementDate;
    if text != "" {
      var layouts := [DateOnly, DateTime];
      for i := 0 to |layouts|
        invariant d == DataOf(doc.header.(settlementDate := ""), t, fl, stamp)
        invariant forall j :: 0 <= j < i ==> ParseWith(layouts[j], text, stamp) == None
      {
        var parsed := ParseWith(layouts[i], text, stamp);
        if parsed.Some? {
          assert i == 1 ==> ParseWith(layouts[0], text, stamp) == None;
          d := d.(settlementDate := parsed.value);
          return Some(d);
        }
      }
      assert ParseWith(layouts[0], text, stamp) == None && ParseWith(layouts[1], text, stamp) == None;
    }
    return Some(d);
  }

  /** The settlement date that a document carries for a payment created at `now`. */
  function EffectiveDate(d: PaymentData, now: Time): Date {
    var created := if d.createdAt == ZERO_TIME then now else d.createdAt;
    (if d.settlementDate == ZERO_TIME then created else d.settlementDate).date
  }

  function OrNone(s: string): Option<string> {
    if s == "" then None else Some(s)
  }

  /** `now` is the clock and `created` the formatted creation time, which is never read back. */
  function ToPacs008(msgId: string, d: PaymentData, now: Time, created: string, fl: real -> real): (doc: Document)
    ensures |doc.transfers| == 1 && doc.header.txCount == "1" && doc.header.settlementMethod == Some("CLRG")
    ensures doc.header.msgId == msgId && doc.header.created == created && doc.transfers[0].txId == d.id
    ensures doc.header.total == Some(doc.transfers[0].amount)
    ensures doc.header.settlementDate == doc.transfers[0].settlementDate
    ensures d.settlementDate != ZERO_TIME ==> doc.header.settlementDate == FormatDate(d.settlementDate.date)
    ensures d.settlementDate == ZERO_TIME && d.createdAt != ZERO_TIME ==>
              doc.header.settlementDate == FormatDate(d.createdAt.date)
    ensures d.settlementDate == ZERO_TIME && d.createdAt == ZERO_TIME ==>
              doc.header.settlementDate == FormatDate(now.date)
  {
    var day := FormatDate(EffectiveDate(d, now));
    var amount := Amount(MinorUnitsToAmount(d.amount, fl), d.currency);
    Document(
      GroupHeader(msgId, created, "1", Some(amount), day, Some("CLRG")),
      [CreditTransfer(
         d.instrId, d.endToEndId, d.id, d.uetr, None, amount, day,
         if d.chargeBearer == "" then "SLEV" else d.chargeBearer,
         d.debtorName, Account("", Some(Some(d.sourceAccount))), Agent("", Some(d.sourceBIC)),
         Agent("", Some(d.destBIC)), d.creditorName, Account("", Some(Some(d.destAccount))),
         OrNone(d.purposeCode), OrNone(d.remittanceInfo))])
  }

  /** What a payment looks like after a trip through a document. */
  function Carried(d: PaymentData, now: Time): PaymentData {
    d.(id := "", status := "", createdAt := ZERO_TIME,
       chargeBearer := if d.chargeBearer == "" then "SLEV" else d.chargeBearer,
       settlementDate := Time(EffectiveDate(d, now), 0))
  }

  /** Without a word about the amount: it comes back as the arithmetic returns it, and all else as carried. */
  lemma DocumentTrip(msgId: string, d: PaymentData, now: Time, created: string,
                     fl: real -> real, stamp: string -> Option<Time>)
    requires ValidDate(EffectiveDate(d, now))
    ensures var back := FromDocument(ToPacs008(msgId, d, now, created, fl), fl, stamp);
            var expected := Carried(d, now).(amount := Returned(d.amount, fl));
            && back.Some?
            && (EffectiveDate(d, now).year < 10000 ==> back == Some(expected))
            && (expected == Carried(d, now) <==> Returned(d.amount, fl) == d.amount)
            && (EffectiveDate(d, now).year >= 10000 && stamp(FormatDate(EffectiveDate(d, now))) == None ==>
                  back == Some(expected.(settlementDate := ZERO_TIME)))
  {
    DateRoundTrip(EffectiveDate(d, now));
  }

  /**
   * FromPacs008 undoes ToPacs008 for every payment whose amount the arithmetic carries: everything comes
   * back but id, status and creation time, an empty charge bearer reads as SLEV, and the settlement date
   * is cut to its day. The date needs a year of at most four digits; the layout cannot carry a longer one.
   */
  lemma DocumentRoundTrip(msgId: string, d: PaymentData, now: Time, created: string,
                          fl: real -> real, stamp: string -> Option<Time>)
    requires Carries(d.amount, fl)
    requires ValidDate(EffectiveDate(d, now))
    ensures var back := FromDocument(ToPacs008(msgId, d, now, created, fl), fl, stamp);
            && back.Some?
            && (EffectiveDate(d, now).year < 10000 ==> back == Some(Carried(d, now)))
            && (EffectiveDate(d, now).year >= 10000 && stamp(FormatDate(EffectiveDate(d, now))) == None ==>
                  back == Some(Carried(d, now).(settlementDate := ZERO_TIME)))
  {
    CarriedAmount(d.amount, fl);
    DocumentTrip(msgId, d, now, created, fl, stamp);
  }

  /**
   * In IEEE 754 arithmetic the whole document comes back if and only if the shift of its amount is 0,
   * for every amount whose float64 is exact; otherwise the amount alone is one minor unit off.
   */
  lemma DocumentRoundTripIff(msgId: string, d: PaymentData, now: Time, created: string,
                             fl: real -> real, stamp: string -> Option<Time>)
    requires -TWO53 <= d.amount <= TWO53 && Ieee(d.amount, fl)
    requires ValidDate(EffectiveDate(d, now)) && EffectiveDate(d, now).year < 10000
    ensures var back := FromDocument(ToPacs008(msgId, d, now, created, fl), fl, stamp);
            && (back == Some(Carried(d, now)) <==> Shift(d.amount) == 0)
            && back == Some(Carried(d, now).(amount := Returned(d.amount, fl)))
            && Returned(d.amount, fl) == d.amount + Shift(d.amount)
  {
    assert Shift(d.amount) == 0 <==> Returned(d.amount, fl) == d.amount by {
      ReturnedIsShifted(d.amount, fl);
    }
    assert Returned(d.amount, fl) == d.amount + Shift(d.amount) by {
      ReturnedIsShifted(d.amount, fl);
    }
    DocumentTrip(msgId, d, now, created, fl, stamp);
  }

  /** A second trip changes nothing more. */
  lemma CarriedIsStable(msgId: string, d: PaymentData, now: Time, later: Time, created: string,
                        fl: real -> real, stamp: string -> Option<Time>)
    requires Carries(d.amount, fl)
    requires ValidDate(EffectiveDate(d, now)) && EffectiveDate(d, now).year < 10000
    requires EffectiveDate(d, now) != ZERO_TIME.date
    ensures FromDocument(ToPacs008(msgId, Carried(d, now), later, created, fl), fl, stamp) == Some(Carried(d, now))
  {
    DocumentRoundTrip(msgId, Carried(d, now), later, created, fl, stamp);
    assert EffectiveDate(Carried(d, now), later) == EffectiveDate(d, now);
  }
}
