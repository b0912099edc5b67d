/** The document types of frontend/src/lib/document-types.ts and the driver's checklist of
    frontend/src/lib/driver-portal.ts. */
module DriverChecklist {
  import opened Text
  import opened BrowserText
  import opened Counting

  datatype DocumentType =
    | RateConfirmation | BillOfLading | ProofOfDelivery | Invoice | LumperReceipt | FuelReceipt
    | DetentionSupport | ScaleTicket | AccessorialSupport | PaymentRemittance | NoticeOfAssignment
    | W9 | CertificateOfInsurance | DamageClaimPhoto | OtherType | Unknown

  // ---------- the canonical type of a text ----------

  function Name(t: DocumentType): string {
    match t
    case RateConfirmation => "rate_confirmation"
    case BillOfLading => "bill_of_lading"
    case ProofOfDelivery => "proof_of_delivery"
    case Invoice => "invoice"
    case LumperReceipt => "lumper_receipt"
    case FuelReceipt => "fuel_receipt"
    case DetentionSupport => "detention_support"
    case ScaleTicket => "scale_ticket"
    case AccessorialSupport => "accessorial_support"
    case PaymentRemittance => "payment_remittance"
    case NoticeOfAssignment => "notice_of_assignment"
    case W9 => "w9"
    case CertificateOfInsurance => "certificate_of_insurance"
    case DamageClaimPhoto => "damage_claim_photo"
    case OtherType => "other"
    case Unknown => "unknown"
  }

  const ALL_TYPES := [
    RateConfirmation, BillOfLading, ProofOfDelivery, Invoice, LumperReceipt, FuelReceipt, DetentionSupport, ScaleTicket,
    AccessorialSupport, PaymentRemittance, NoticeOfAssignment, W9, CertificateOfInsurance, DamageClaimPhoto, OtherType,
    Unknown]

  /** The table's entries under the types' own names. */
  function Named(types: seq<DocumentType>, s: string): Option<DocumentType> {
    if types == [] then None
    else if Name(types[0]) == s then Some(types[0])
    else Named(types[1..], s)
  }

  /** The table's other entries. */
  function Nicknamed(s: string): Option<DocumentType> {
    if s in {"ratecon", "rate con", "rate-confirmation", "rate confirmation", "rate_confirmation_pdf",
             "rate confirmation pdf", "rc"} then Some(RateConfirmation)
    else if s in {"bol", "bill-of-lading", "bill of lading"} then Some(BillOfLading)
    else if s in {"pod", "proof-of-delivery", "proof of delivery", "delivery_receipt", "delivery receipt",
                  "signed_pod", "signed pod"} then Some(ProofOfDelivery)
    else if s in {"freight_invoice", "freight invoice", "generated_invoice", "generated invoice"} then Some(Invoice)
    else if s == "lumper receipt" then Some(LumperReceipt)
    else if s in {"fuel receipt", "fuel"} then Some(FuelReceipt)
    else if s == "detention support" then Some(DetentionSupport)
    else if s == "scale ticket" then Some(ScaleTicket)
    else if s == "accessorial support" then Some(AccessorialSupport)
    else if s == "payment remittance" then Some(PaymentRemittance)
    else if s == "notice of assignment" then Some(NoticeOfAssignment)
    else if s == "w-9" then Some(W9)
    else if s == "certificate of insurance" then Some(CertificateOfInsurance)
    else if s == "damage claim photo" then Some(DamageClaimPhoto)
    else None
  }

  function Alias(s: string): Option<DocumentType> {
    var named := Named(ALL_TYPES, s);
    if named.Some? then named else Nicknamed(s)
  }

  predicate IsDotOrSlash(c: char) {
    c == '.' || c == '/'
  }

  /** Every run of the characters becomes one blank; `inRun` says that one is under way. */
  function CollapseRuns(s: string, isPart: char -> bool, inRun: bool): string {
    if s == "" then ""
    else if isPart(s[0]) then (if inRun then "" else " ") + CollapseRuns(s[1..], isPart, true)
    else [s[0]] + CollapseRuns(s[1..], isPart, false)
  }

  function NormalizeKey(v: string): string {
    CollapseRuns(CollapseRuns(LowerText(Trim(v)), IsDotOrSlash, false), IsBlank, false)
  }

  function ReplaceAll(s: string, a: char, b: char): string {
    seq(|s|, i requires 0 <= i < |s| => if s[i] == a then b else s[i])
  }

  function FirstMatch(candidates: seq<string>): DocumentType {
    if candidates == [] then Unknown
    else if Alias(candidates[0]).Some? then Alias(candidates[0]).value
    else FirstMatch(candidates[1..])
  }

  /** `canonicalDocumentType`. */
  function Canonical(v: string): DocumentType {
    var n := NormalizeKey(v);
    if n == "" then Unknown
    else
      FirstMatch([n, ReplaceAll(n, ' ', '_'), ReplaceAll(n, ' ', '-'),
                  ReplaceAll(n, '-', '_'), ReplaceAll(n, '_', ' ')])
  }

  predicate IsNameChar(c: char) {
    'a' <= c <= 'z' || '0' <= c <= '9' || c == '_'
  }

  predicate IsPlainName(s: string) {
    s != "" && forall i | 0 <= i < |s| :: IsNameChar(s[i])
  }

  lemma {:induction false} CollapseKeeps(s: string, isPart: char -> bool)
    requires forall i | 0 <= i < |s| :: !isPart(s[i])
    ensures CollapseRuns(s, isPart, false) == s
  {
    if s != "" {
      CollapseKeeps(s[1..], isPart);
    }
  }

  lemma {:induction false} LowerKeepsName(s: string)
    requires forall i | 0 <= i < |s| :: IsNameChar(s[i])
    ensures LowerText(s) == s
  {
    if s != "" {
      LowerKeepsName(s[1..]);
    }
  }

  lemma NormalizeKeepsName(s: string)
    requires IsPlainName(s)
    ensures NormalizeKey(s) == s
  {
    assert Trim(s) == s;
    LowerKeepsName(s);
    CollapseKeeps(s, IsDotOrSlash);
    CollapseKeeps(s, IsBlank);
  }

  lemma FreightNamesArePlain(t: DocumentType)
    requires t.RateConfirmation? || t.BillOfLading? || t.ProofOfDelivery? || t.Invoice?
    ensures IsPlainName(Name(t))
  {
    match t
    case RateConfirmation =>
    case BillOfLading =>
    case ProofOfDelivery =>
    case Invoice =>
  }

  lemma ExpenseNamesArePlain(t: DocumentType)
    requires t.LumperReceipt? || t.FuelReceipt? || t.DetentionSupport? || t.ScaleTicket?
    ensures IsPlainName(Name(t))
  {
    match t
    case LumperReceipt =>
    case FuelReceipt =>
    case DetentionSupport =>
    case ScaleTicket =>
  }

  lemma SupportNamesArePlain(t: DocumentType)
    requires t.AccessorialSupport? || t.PaymentRemittance? || t.NoticeOfAssignment? || t.W9?
    ensures IsPlainName(Name(t))
  {
    match t
    case AccessorialSupport =>
    case PaymentRemittance =>
    case NoticeOfAssignment =>
    case W9 =>
  }

  lemma RemainingNamesArePlain(t: DocumentType)
    requires t.CertificateOfInsurance? || t.DamageClaimPhoto? || t.OtherType? || t.Unknown?
    ensures IsPlainName(Name(t))
  {
    match t
    case CertificateOfInsurance =>
    case DamageClaimPhoto =>
    case OtherType =>
    case Unknown =>
  }

  lemma NamesArePlain(t: DocumentType)
    ensures IsPlainName(Name(t))
  {
    match t
    case RateConfirmation => FreightNamesArePlain(t);
    case BillOfLading => FreightNamesArePlain(t);
    case ProofOfDelivery => FreightNamesArePlain(t);
    case Invoice => FreightNamesArePlain(t);
    case LumperReceipt => ExpenseNamesArePlain(t);
    case FuelReceipt => ExpenseNamesArePlain(t);
    case DetentionSupport => ExpenseNamesArePlain(t);
    case ScaleTicket => ExpenseNamesArePlain(t);
    case AccessorialSupport => SupportNamesArePlain(t);
    case PaymentRemittance => SupportNamesArePlain(t);
    case NoticeOfAssignment => SupportNamesArePlain(t);
    case W9 => SupportNamesArePlain(t);
    case CertificateOfInsurance => RemainingNamesArePlain(t);
    case DamageClaimPhoto => RemainingNamesArePlain(t);
    case OtherType => RemainingNamesArePlain(t);
    case Unknown => RemainingNamesArePlain(t);
  }

  /** A name's length and first letter tell which it is. */
  function Shape(t: DocumentType): (int, char) {
    match t
    case RateConfirmation => (17, 'r')
    case BillOfLading => (14, 'b')
    case ProofOfDelivery => (17, 'p')
    case Invoice => (7, 'i')
    case LumperReceipt => (14, 'l')
    case FuelReceipt => (12, 'f')
    case DetentionSupport => (17, 'd')
    case ScaleTicket => (12, 's')
    case AccessorialSupport => (19, 'a')
    case PaymentRemittance => (18, 'p')
    case NoticeOfAssignment => (20, 'n')
    case W9 => (2, 'w')
    case CertificateOfInsurance => (24, 'c')
    case DamageClaimPhoto => (18, 'd')
    case OtherType => (5, 'o')
    case Unknown => (7, 'u')
  }

  lemma NameHasShape(t: DocumentType)
    ensures |Name(t)| == Shape(t).0 > 0 && Name(t)[0] == Shape(t).1
  {
  }

  lemma NamesDiffer(t: DocumentType, u: DocumentType)
    requires Name(t) == Name(u)
    ensures t == u
  {
    NameHasShape(t);
    NameHasShape(u);
    ShapesDiffer(t, u);
  }

  lemma ShapesDiffer(t: DocumentType, u: DocumentType)
    requires Shape(t) == Shape(u)
    ensures t == u
  {
  }

  lemma {:induction false} NamesAreNamed(types: seq<DocumentType>, t: DocumentType)
    requires t in types
    ensures Named(types, Name(t)) == Some(t)
  {
    if Name(types[0]) == Name(t) {
      NamesDiffer(types[0], t);
    } else {
      NamesAreNamed(types[1..], t);
    }
  }

  lemma EveryTypeIsListed(t: DocumentType)
    ensures t in ALL_TYPES
  {
    var s := ALL_TYPES;
    match t
    case RateConfirmation => assert s[0] == t;
    case BillOfLading => assert s[1] == t;
    case ProofOfDelivery => assert s[2] == t;
    case Invoice => assert s[3] == t;
    case LumperReceipt => assert s[4] == t;
    case FuelReceipt => assert s[5] == t;
    case DetentionSupport => assert s[6] == t;
    case ScaleTicket => assert s[7] == t;
    case AccessorialSupport => assert s[8] == t;
    case PaymentRemittance => assert s[9] == t;
    case NoticeOfAssignment => assert s[10] == t;
    case W9 => assert s[11] == t;
    case CertificateOfInsurance => assert s[12] == t;
    case DamageClaimPhoto => assert s[13] == t;
    case OtherType => assert s[14] == t;
    case Unknown => assert s[15] == t;
  }

  lemma NameIsItsType(t: DocumentType)
    ensures Canonical(Name(t)) == t
  {
    NamesArePlain(t);
    NormalizeKeepsName(Name(t));
    EveryTypeIsListed(t);
    NamesAreNamed(ALL_TYPES, t);
  }

  /** Canonicalising is idempotent: a type's own name is read as that type. */
  lemma CanonicalIsIdempotent(v: string)
    ensures Canonical(Name(Canonical(v))) == Canonical(v)
  {
    NameIsItsType(Canonical(v));
  }

  lemma {:induction false} LowerOfUpper(s: string)
    ensures LowerText(Upper(s)) == LowerText(s)
  {
    if s != "" {
      assert Upper(s)[1..] == Upper(s[1..]);
      LowerOfUpper(s[1..]);
    }
  }

  lemma {:induction false} TrimOfUpper(s: string)
    ensures Trim(Upper(s)) == Upper(Trim(s))
  {
    if s != "" {
      var u := Upper(s);
      assert IsBlank(u[0]) == IsBlank(s[0]) && IsBlank(u[|u| - 1]) == IsBlank(s[|s| - 1]);
      assert u[1..] == Upper(s[1..]) && u[..|u| - 1] == Upper(s[..|s| - 1]);
      TrimOfUpper(s[1..]);
      TrimOfUpper(s[..|s| - 1]);
    }
  }

  /** Neither capitals nor outer blanks change how a text is read. */
  lemma CanonicalIgnoresCaseAndPadding(v: string, w: string)
    requires Trim(Upper(v)) == Trim(Upper(w))
    ensures Canonical(v) == Canonical(w)
  {
    TrimOfUpper(v);
    TrimOfUpper(w);
    LowerOfUpper(Trim(v));
    LowerOfUpper(Trim(w));
  }

  /** No type's own name is this short, or has seven letters and begins with an r. */
  predicate NoTypesShape(s: string) {
    |s| == 3 || |s| == 4 || (|s| == 2 && s[0] == 'r') || (|s| == 7 && s[0] == 'r')
  }

  lemma {:induction false} NotNamed(types: seq<DocumentType>, s: string)
    requires NoTypesShape(s)
    ensures Named(types, s) == None
  {
    if types != [] {
      NameHasShape(types[0]);
      NotNamed(types[1..], s);
    }
  }

  lemma ReadAsNickname(v: string)
    requires NoTypesShape(NormalizeKey(v)) && Nicknamed(NormalizeKey(v)).Some?
    ensures Canonical(v) == Nicknamed(NormalizeKey(v)).value
  {
    NotNamed(ALL_TYPES, NormalizeKey(v));
  }

  lemma Nicknames()
    ensures Nicknamed("bol") == Some(BillOfLading) && Nicknamed("pod") == Some(ProofOfDelivery)
    ensures Nicknamed("rc") == Nicknamed("ratecon") == Some(RateConfirmation)
    ensures Nicknamed("fuel") == Some(FuelReceipt) && Nicknamed("w-9") == Some(W9)
  {
  }

  /** The drivers' own abbreviations. */
  lemma AbbreviationsAreRead(v: string)
    ensures NormalizeKey(v) == "bol" ==> Canonical(v) == BillOfLading
    ensures NormalizeKey(v) == "pod" ==> Canonical(v) == ProofOfDelivery
    ensures NormalizeKey(v) == "rc" || NormalizeKey(v) == "ratecon" ==> Canonical(v) == RateConfirmation
    ensures NormalizeKey(v) == "fuel" ==> Canonical(v) == FuelReceipt
    ensures NormalizeKey(v) == "w-9" ==> Canonical(v) == W9
  {
    Nicknames();
    if NormalizeKey(v) in {"bol", "pod", "rc", "ratecon", "fuel", "w-9"} { ReadAsNickname(v); }
  }

  // ---------- the checklist ----------

  datatype Status = Missing | Uploaded | UnderReview | Approved | Rejected | NeedsReupload

  datatype Item = Item(documentType: DocumentType, required: bool, status: Status)

  /** A value of unknown shape: an array whose elements are texts or something else, or
      no array but true or false as a condition. */
  datatype Json = Array(items: seq<Option<string>>) | NoArray(truthy: bool)

  datatype Readiness = Readiness(present: Json, submission: Json, missingRecommended: Json)

  const REQUIRED_BY_DEFAULT := [RateConfirmation, BillOfLading, ProofOfDelivery]
  const OPTIONAL_BY_DEFAULT := [LumperReceipt, ScaleTicket, FuelReceipt, AccessorialSupport, OtherType]

  function KnownType(item: Option<string>): seq<DocumentType> {
    if item.Some? && Canonical(item.value) != Unknown then [Canonical(item.value)] else []
  }

  function KnownTypes(items: seq<Option<string>>): seq<DocumentType> {
    if items == [] then [] else KnownType(items[0]) + KnownTypes(items[1..])
  }

  function CanonicalList(v: Json): seq<DocumentType> {
    if v.Array? then KnownTypes(v.items) else []
  }

  /** The types in the order of their first occurrence, each once. */
  function Unique(ts: seq<DocumentType>): seq<DocumentType> {
    if ts == [] then []
    else
      var front, last := Unique(ts[..|ts| - 1]), ts[|ts| - 1];
      if last in front then front else front + [last]
  }

  function Except(ts: seq<DocumentType>, others: seq<DocumentType>): seq<DocumentType> {
    if ts == [] then [] else (if ts[0] in others then [] else [ts[0]]) + Except(ts[1..], others)
  }

  /** An array counts as true, even an empty one. */
  predicate Truthy(v: Json) {
    v.Array? || v.truthy
  }

  function Required(r: Readiness): seq<DocumentType> {
    Unique(CanonicalList(r.submission) + if Truthy(r.submission) then [] else REQUIRED_BY_DEFAULT)
  }

  function Optional(r: Readiness): seq<DocumentType> {
    Except(Unique(OPTIONAL_BY_DEFAULT + CanonicalList(r.missingRecommended) + CanonicalList(r.present)), Required(r))
  }

  function StatusOf(t: DocumentType, r: Readiness, statuses: map<DocumentType, Status>): Status {
    if t in statuses then statuses[t] else if t in CanonicalList(r.present) then UnderReview else Missing
  }

  function Build(ts: seq<DocumentType>, required: bool, r: Readiness, statuses: map<DocumentType, Status>)
    : (items: seq<Item>)
    ensures |items| == |ts|
    ensures forall i | 0 <= i < |ts| :: items[i] == Item(ts[i], required, StatusOf(ts[i], r, statuses))
  {
    seq(|ts|, i requires 0 <= i < |ts| => Item(ts[i], required, StatusOf(ts[i], r, statuses)))
  }

  /** `checklistFromReadiness`. */
  function Checklist(r: Readiness, statuses: map<DocumentType, Status>): seq<Item> {
    Build(Required(r), true, r, statuses) + Build(Optional(r), false, r, statuses)
  }

  ghost predicate Distinct(ts: seq<DocumentType>) {
    forall i, j | 0 <= i < j < |ts| :: ts[i] != ts[j]
  }

  lemma {:induction false} UniqueIsDistinct(ts: seq<DocumentType>)
    ensures Distinct(Unique(ts)) && forall t :: t in Unique(ts) <==> t in ts
  {
    if ts != [] {
      var front, last := ts[..|ts| - 1], ts[|ts| - 1];
      UniqueIsDistinct(front);
      assert ts == front + [last];
    }
  }

  lemma {:induction false} ExceptIsDistinct(ts: seq<DocumentType>, others: seq<DocumentType>)
    requires Distinct(ts)
    ensures Distinct(Except(ts, others)) && forall t :: t in Except(ts, others) <==> t in ts && t !in others
  {
    if ts != [] {
      ExceptIsDistinct(ts[1..], others);
      assert ts == [ts[0]] + ts[1..];
      assert ts[0] !in ts[1..];
    }
  }

  /** The value is an array with a text that is read as the type t. */
  ghost predicate Says(v: Json, t: DocumentType) {
    v.Array? && t != Unknown && exists i | 0 <= i < |v.items| :: Reads(v.items[i], t)
  }

  ghost predicate Reads(item: Option<string>, t: DocumentType) {
    item.Some? && Canonical(item.value) == t
  }

  lemma KnownTypeIff(item: Option<string>, t: DocumentType)
    ensures t in KnownType(item) <==> Reads(item, t) && t != Unknown
  {
  }

  lemma {:induction false} KnownIfRead(items: seq<Option<string>>, i: nat, t: DocumentType)
    requires i < |items| && Reads(items[i], t) && t != Unknown
    ensures t in KnownTypes(items)
  {
    if i > 0 {
      KnownIfRead(items[1..], i - 1, t);
    } else {
      KnownTypeIff(items[0], t);
    }
  }

  lemma {:induction false} ReadIfKnown(items: seq<Option<string>>, t: DocumentType) returns (i: nat)
    requires t in KnownTypes(items)
    ensures i < |items| && Reads(items[i], t) && t != Unknown
  {
    KnownTypeIff(items[0], t);
    if t in KnownType(items[0]) {
      i := 0;
    } else {
      i := ReadIfKnown(items[1..], t);
      i := i + 1;
    }
  }

  lemma KnownTypesIff(items: seq<Option<string>>, t: DocumentType)
    ensures t in KnownTypes(items) <==> Says(Array(items), t)
  {
    if t in KnownTypes(items) {
      var i := ReadIfKnown(items, t);
    }
    if i: nat :| i < |items| && Reads(items[i], t) && t != Unknown {
      KnownIfRead(items, i, t);
    }
  }

  lemma CanonicalListIff(v: Json)
    ensures forall t :: t in CanonicalList(v) <==> Says(v, t)
  {
    if v.Array? {
      forall t ensures t in CanonicalList(v) <==> Says(v, t) { KnownTypesIff(v.items, t); }
    }
  }

  /** The type is asked for: submission names it or, where submission is neither an array
      nor true as a condition, the driver always needs it. */
  ghost predicate IsRequired(r: Readiness, t: DocumentType) {
    || Says(r.submission, t)
    || (!r.submission.Array? && !r.submission.truthy && (t.RateConfirmation? || t.BillOfLading? || t.ProofOfDelivery?))
  }

  ghost predicate IsListed(r: Readiness, t: DocumentType) {
    || IsRequired(r, t) || Says(r.missingRecommended, t) || Says(r.present, t)
    || t.LumperReceipt? || t.ScaleTicket? || t.FuelReceipt? || t.AccessorialSupport? || t.OtherType?
  }

  lemma RequiredIff(r: Readiness)
    ensures Distinct(Required(r)) && forall t :: t in Required(r) <==> IsRequired(r, t)
  {
    UniqueIsDistinct(CanonicalList(r.submission) + if Truthy(r.submission) then [] else REQUIRED_BY_DEFAULT);
    CanonicalListIff(r.submission);
    var d := REQUIRED_BY_DEFAULT;
    assert d[0].RateConfirmation? && d[1].BillOfLading? && d[2].ProofOfDelivery?;
  }

  lemma OptionalIff(r: Readiness)
    ensures Distinct(Optional(r)) && forall t :: t in Optional(r) <==> IsListed(r, t) && !IsRequired(r, t)
  {
    RequiredIff(r);
    CanonicalListIff(r.missingRecommended);
    CanonicalListIff(r.present);
    var o := OPTIONAL_BY_DEFAULT;
    assert o[0].LumperReceipt? && o[1].ScaleTicket? && o[2].FuelReceipt? && o[3].AccessorialSupport? && o[4].OtherType?;
    var all := OPTIONAL_BY_DEFAULT + CanonicalList(r.missingRecommended) + CanonicalList(r.present);
    UniqueIsDistinct(all);
    ExceptIsDistinct(Unique(all), Required(r));
  }

  /** The checklist has one item for each listed type and no other, required exactly when
      the type is.  It carries the type's known status; a type without one is under review
      or missing, as it is present or not. */
  lemma ChecklistIsExact(r: Readiness, statuses: map<DocumentType, Status>)
    ensures var items := Checklist(r, statuses);
      && (forall i, j | 0 <= i < j < |items| :: items[i].documentType != items[j].documentType)
      && (forall i | 0 <= i < |items| ::
            IsListed(r, items[i].documentType) && (items[i].required <==> IsRequired(r, items[i].documentType)))
      && (forall t | IsListed(r, t) :: exists i | 0 <= i < |items| :: items[i].documentType == t)
      && (forall i | 0 <= i < |items| && items[i].documentType in statuses ::
            items[i].status == statuses[items[i].documentType])
      && (forall i | 0 <= i < |items| && items[i].documentType !in statuses ::
            items[i].status == if Says(r.present, items[i].documentType) then UnderReview else Missing)
  {
    CanonicalListIff(r.present);
    RequiredIff(r);
    OptionalIff(r);
    var items, m := Checklist(r, statuses), |Required(r)|;
    forall i | 0 <= i < |items|
      ensures items[i].documentType == if i < m then Required(r)[i] else Optional(r)[i - m]
      ensures items[i].required <==> i < m
      ensures items[i].status == StatusOf(items[i].documentType, r, statuses)
    {
    }
    forall i, j | 0 <= i < j < |items| ensures items[i].documentType != items[j].documentType {
      if i < m <= j {
        assert Required(r)[i] in Required(r) && Optional(r)[j - m] in Optional(r);
      }
    }
    forall t | IsListed(r, t) ensures exists i | 0 <= i < |items| :: items[i].documentType == t {
      if IsRequired(r, t) {
        var i :| 0 <= i < m && Required(r)[i] == t;
        assert items[i].documentType == t;
      } else {
        var i :| 0 <= i < |Optional(r)| && Optional(r)[i] == t;
        assert items[m + i].documentType == t;
      }
    }
  }

  // ---------- completion ----------

  predicate Outstanding(s: Status) {
    s.Missing? || s.Rejected? || s.NeedsReupload?
  }

  function RequiredItems(items: seq<Item>): seq<Item> {
    if items == [] then [] else (if items[0].required then [items[0]] else []) + RequiredItems(items[1..])
  }

  /** `getMissingRequiredDocuments`. */
  function MissingRequired(items: seq<Item>): seq<Item> {
    if items == [] then []
    else (if items[0].required && Outstanding(items[0].status) then [items[0]] else []) + MissingRequired(items[1..])
  }

  function Satisfied(items: seq<Item>): seq<Item> {
    if items == [] then [] else (if Outstanding(items[0].status) then [] else [items[0]]) + Satisfied(items[1..])
  }

  /** `Math.round`: halves go up. */
  function RoundedPercent(completed: int, total: int): int
    requires total > 0
  {
    (200 * completed + total) / (2 * total)
  }

  datatype Completion = Completion(completed: int, total: int, percent: int)

  function DocumentCompletion(items: seq<Item>): Completion {
    var required := RequiredItems(items);
    var completed := |Satisfied(required)|;
    Completion(completed, |required|, if required == [] then 100 else RoundedPercent(completed, |required|))
  }

  /** What is complete and what is missing make up what is required. */
  lemma {:induction false} CompletedAndMissing(items: seq<Item>)
    ensures |Satisfied(RequiredItems(items))| + |MissingRequired(items)| == |RequiredItems(items)|
  {
    if items != [] {
      CompletedAndMissing(items[1..]);
      var rest := RequiredItems(items[1..]);
      assert ([items[0]] + rest)[1..] == rest;
      assert [] + rest == rest;
    }
  }

  /** What is reported as missing are the required items of the list that are missing, rejected
      or to be uploaded again. */
  lemma {:induction false} MissingIff(items: seq<Item>, x: Item)
    ensures x in MissingRequired(items) <==>
              x in items && x.required && (x.status == Missing || x.status == Rejected || x.status == NeedsReupload)
  {
    if items != [] {
      MissingIff(items[1..], x);
      assert items == [items[0]] + items[1..];
    }
  }

  lemma MulMono(a: int, b: int, d: int)
    requires a <= b && d > 0
    ensures a * d <= b * d
  {
  }

  lemma QuotientBounds(x: int, d: int)
    requires d > 0
    ensures (x / d) * d <= x < (x / d + 1) * d
  {
  }

  lemma QuotientAtLeast(x: int, d: int, k: int)
    requires d > 0
    ensures x / d >= k <==> x >= k * d
  {
    var q := x / d;
    QuotientBounds(x, d);
    if q >= k {
      MulMono(k, q, d);
    } else {
      MulMono(q + 1, k, d);
    }
  }

  /** Rounding reaches 100 exactly when no more than half a percent is missing. */
  lemma RoundsTo100Iff(completed: int, total: int)
    requires 0 <= completed <= total && total > 0
    ensures RoundedPercent(completed, total) == 100 <==> 200 * (total - completed) <= total
    ensures 0 <= RoundedPercent(completed, total) <= 100
  {
    QuotientAtLeast(200 * completed + total, 2 * total, 0);
    QuotientAtLeast(200 * completed + total, 2 * total, 100);
    QuotientAtLeast(200 * completed + total, 2 * total, 101);
  }

  /** The percent is the whole number nearest to 100 * completed / total, of two such the larger. */
  lemma RoundsToNearest(completed: int, total: int)
    requires total > 0
    ensures var p := RoundedPercent(completed, total);
            200 * completed - total < p * (2 * total) <= 200 * completed + total
  {
    var p := RoundedPercent(completed, total);
    QuotientBounds(200 * completed + total, 2 * total);
    assert (p + 1) * (2 * total) == p * (2 * total) + 2 * total;
  }

  function TypeSet(ts: seq<DocumentType>): set<DocumentType> {
    set t | t in ts
  }

  lemma {:induction false} DistinctSize(ts: seq<DocumentType>)
    requires Distinct(ts)
    ensures |TypeSet(ts)| == |ts|
  {
    if ts != [] {
      var front, last := ts[..|ts| - 1], ts[|ts| - 1];
      assert ts == front + [last];
      assert TypeSet(ts) == TypeSet(front) + {last};
      DistinctSize(front);
    }
  }

  lemma {:induction false} KnownTypesAreKnown(items: seq<Option<string>>)
    ensures Unknown !in KnownTypes(items)
  {
    if items != [] {
      KnownTypesAreKnown(items[1..]);
    }
  }

  /** There are fifteen known types, so no more than that can be required. */
  lemma RequiredAtMost15(r: Readiness)
    ensures |Required(r)| <= 15 && Unknown !in Required(r)
  {
    RequiredIff(r);
    if r.submission.Array? { KnownTypesAreKnown(r.submission.items); }
    var known := ALL_TYPES[..15];
    forall t | t in Required(r) ensures t in known {
      EveryTypeIsListed(t);
      assert ALL_TYPES == known + [Unknown];
    }
    DistinctSize(Required(r));
    SubsetSize(TypeSet(Required(r)), TypeSet(known));
    TypeSetSize(known);
  }

  lemma {:induction false} TypeSetSize(ts: seq<DocumentType>)
    ensures |TypeSet(ts)| <= |ts|
  {
    if ts != [] {
      var front, last := ts[..|ts| - 1], ts[|ts| - 1];
      TypeSetSize(front);
      UnionSize(TypeSet(front), {last}, TypeSet(ts));
    }
  }

  lemma {:induction false} RequiredItemsOfBuilt(ts: seq<DocumentType>, required: bool, r: Readiness,
                                                statuses: map<DocumentType, Status>, rest: seq<Item>)
    ensures RequiredItems(Build(ts, required, r, statuses) + rest) ==
              (if required then Build(ts, required, r, statuses) else []) + RequiredItems(rest)
  {
    var items := Build(ts, required, r, statuses);
    if ts == [] {
      assert items + rest == rest;
    } else {
      assert (items + rest)[1..] == Build(ts[1..], required, r, statuses) + rest;
      RequiredItemsOfBuilt(ts[1..], required, r, statuses, rest);
      assert items == [items[0]] + Build(ts[1..], required, r, statuses);
    }
  }

  lemma RequiredOfChecklist(r: Readiness, statuses: map<DocumentType, Status>)
    ensures RequiredItems(Checklist(r, statuses)) == Build(Required(r), true, r, statuses)
  {
    var optional := Build(Optional(r), false, r, statuses);
    RequiredItemsOfBuilt(Required(r), true, r, statuses, optional);
    RequiredItemsOfBuilt(Optional(r), false, r, statuses, []);
    assert optional + [] == optional;
  }

  /** For every readiness input the percent shown is 100 exactly when no required
      document is missing, rejected or to be uploaded again. */
  lemma CompleteIffNothingMissing(r: Readiness, statuses: map<DocumentType, Status>)
    ensures var items := Checklist(r, statuses);
            DocumentCompletion(items).percent == 100 <==> MissingRequired(items) == []
  {
    var items := Checklist(r, statuses);
    RequiredAtMost15(r);
    RequiredOfChecklist(r, statuses);
    CompletedAndMissing(items);
    var done := DocumentCompletion(items);
    if done.total > 0 { RoundsTo100Iff(done.completed, done.total); }
  }

  /** On the input: the type has a status that is neither missing, rejected nor to be uploaded
      again or, without a status, is among the present documents. */
  ghost predicate Provided(r: Readiness, statuses: map<DocumentType, Status>, t: DocumentType) {
    if t in statuses then statuses[t] == Uploaded || statuses[t] == UnderReview || statuses[t] == Approved
    else Says(r.present, t)
  }

  ghost function RequiredTypes(r: Readiness): set<DocumentType> {
    set t: DocumentType | IsRequired(r, t)
  }

  ghost function ProvidedTypes(r: Readiness, statuses: map<DocumentType, Status>): set<DocumentType> {
    set t: DocumentType | IsRequired(r, t) && Provided(r, statuses, t)
  }

  lemma ProvidedIff(r: Readiness, statuses: map<DocumentType, Status>, t: DocumentType)
    ensures Provided(r, statuses, t) <==> !Outstanding(StatusOf(t, r, statuses))
  {
    CanonicalListIff(r.present);
  }

  ghost function AllProvided(r: Readiness, statuses: map<DocumentType, Status>): set<DocumentType> {
    set t: DocumentType | Provided(r, statuses, t)
  }

  lemma AmongStep(ts: seq<DocumentType>, some: set<DocumentType>)
    requires Distinct(ts) && ts != []
    ensures |TypeSet(ts) * some| == |TypeSet(ts[1..]) * some| + if ts[0] in some then 1 else 0
  {
    var rest := TypeSet(ts[1..]) * some;
    assert ts == [ts[0]] + ts[1..];
    assert ts[0] !in ts[1..];
    assert TypeSet(ts) * some == rest + if ts[0] in some then {ts[0]} else {};
  }

  lemma SatisfiedStep(ts: seq<DocumentType>, r: Readiness, statuses: map<DocumentType, Status>)
    requires ts != []
    ensures |Satisfied(Build(ts, true, r, statuses))| ==
              |Satisfied(Build(ts[1..], true, r, statuses))|
              + if Outstanding(StatusOf(ts[0], r, statuses)) then 0 else 1
  {
    assert Build(ts, true, r, statuses)[1..] == Build(ts[1..], true, r, statuses);
  }

  lemma {:induction false} SatisfiedOfBuilt(ts: seq<DocumentType>, r: Readiness, statuses: map<DocumentType, Status>)
    requires Distinct(ts)
    ensures |Satisfied(Build(ts, true, r, statuses))| == |TypeSet(ts) * AllProvided(r, statuses)|
  {
    if ts == [] {
      assert TypeSet(ts) == {};
    } else {
      SatisfiedOfBuilt(ts[1..], r, statuses);
      ProvidedIff(r, statuses, ts[0]);
      AmongStep(ts, AllProvided(r, statuses));
      SatisfiedStep(ts, r, statuses);
    }
  }

  /** Completion counts the required types and, among them, those provided. */
  lemma CompletionCounts(r: Readiness, statuses: map<DocumentType, Status>)
    ensures DocumentCompletion(Checklist(r, statuses)).total == |RequiredTypes(r)|
    ensures DocumentCompletion(Checklist(r, statuses)).completed == |ProvidedTypes(r, statuses)|
  {
    RequiredOfChecklist(r, statuses);
    RequiredIff(r);
    DistinctSize(Required(r));
    assert TypeSet(Required(r)) == RequiredTypes(r);
    SatisfiedOfBuilt(Required(r), r, statuses);
    assert TypeSet(Required(r)) * AllProvided(r, statuses) == ProvidedTypes(r, statuses);
  }

  /** The percent shown is 100 exactly when every required type is provided. */
  lemma CompleteIffAllProvided(r: Readiness, statuses: map<DocumentType, Status>)
    ensures DocumentCompletion(Checklist(r, statuses)).percent == 100 <==>
              forall t | IsRequired(r, t) :: Provided(r, statuses, t)
  {
    CompletionCounts(r, statuses);
    RequiredAtMost15(r);
    RequiredOfChecklist(r, statuses);
    var required, provided := RequiredTypes(r), ProvidedTypes(r, statuses);
    assert required == provided + (required - provided);
    SubsetSize(provided, required);
    var done := DocumentCompletion(Checklist(r, statuses));
    if done.total > 0 { RoundsTo100Iff(done.completed, done.total); }
    if done.percent == 100 {
      forall t | IsRequired(r, t) ensures Provided(r, statuses, t) {
        assert required - provided == {};
        assert t in required;
      }
    } else {
      assert provided != required;
    }
  }

  /** Nothing at all is required exactly when submission is given but names no known type;
      an empty list is enough, and such a load counts as complete. */
  lemma NothingRequiredIff(r: Readiness, statuses: map<DocumentType, Status>)
    ensures DocumentCompletion(Checklist(r, statuses)).total == 0 <==>
              (r.submission.Array? || r.submission.truthy) && forall t :: !Says(r.submission, t)
  {
    RequiredOfChecklist(r, statuses);
    RequiredIff(r);
    if Required(r) != [] {
      assert IsRequired(r, Required(r)[0]);
    } else {
      assert !IsRequired(r, RateConfirmation);
      forall t ensures !Says(r.submission, t) { assert !IsRequired(r, t); }
    }
  }
}
