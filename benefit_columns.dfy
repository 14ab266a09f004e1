/** The cells of the coupon list (`columns` for the benefit table): how each
    formatted cell reads the row's coupon fields, and the link targets. The
    row is a coupon as the API sends it, so each field is a JSON value or
    missing (`undefined`). */
module BenefitColumns {

  import opened Js
  import FetchHeaders
  import Seqs
  import DataTable

  /** The coupon fields the cells read. */
  datatype Coupon = Coupon(
    couponId: JsValue,
    smartDutyFreeAppUseYn: JsValue,
    offlineStoreUseYn: JsValue,
    displayYn: JsValue,
    issuanceStart: JsValue,
    issuanceEnd: JsValue,
    usagePeriodCode: JsValue,
    validityPeriodDays: JsValue,
    usagePeriodCodeName: JsValue,
    issueStatus: JsValue,
    forceTerminateYn: JsValue)

  /** A field of a decoded response: JSON, or missing. */
  predicate Loaded(v: JsValue)
  {
    v.Undefined? || IsJson(v)
  }

  predicate LoadedCoupon(c: Coupon)
  {
    Loaded(c.couponId) && Loaded(c.smartDutyFreeAppUseYn) && Loaded(c.offlineStoreUseYn)
    && Loaded(c.displayYn) && Loaded(c.issuanceStart) && Loaded(c.issuanceEnd)
    && Loaded(c.usagePeriodCode) && Loaded(c.validityPeriodDays) && Loaded(c.usagePeriodCodeName)
    && Loaded(c.issueStatus) && Loaded(c.forceTerminateYn)
  }

  /** `${v}` in a template literal. */
  function Template(v: JsValue): string
    requires Loaded(v)
  {
    if v.Undefined? then "undefined" else ToString(v)
  }

  /** `v === 'Y'`. */
  predicate IsYes(v: JsValue)
  {
    v == Str("Y")
  }

  const AppChannel := "스마트면세 앱"
  const StoreChannel := "오프라인 매장"

  /** The channel cell: collects the channels the coupon may be used in, the
      app first, and joins them with `, `. */
  method ChannelCell(c: Coupon) returns (text: string)
    ensures IsYes(c.smartDutyFreeAppUseYn) && IsYes(c.offlineStoreUseYn) ==> text == AppChannel + ", " + StoreChannel
    ensures IsYes(c.smartDutyFreeAppUseYn) && !IsYes(c.offlineStoreUseYn) ==> text == AppChannel
    ensures !IsYes(c.smartDutyFreeAppUseYn) && IsYes(c.offlineStoreUseYn) ==> text == StoreChannel
    ensures !IsYes(c.smartDutyFreeAppUseYn) && !IsYes(c.offlineStoreUseYn) ==> text == ""
  {
    var channels: seq<string> := [];
    if c.smartDutyFreeAppUseYn == Str("Y") {
      channels := channels + [AppChannel];
    }
    if c.offlineStoreUseYn == Str("Y") {
      channels := channels + [StoreChannel];
    }
    text := FetchHeaders.JoinWith(channels, ", ");
    if |channels| == 2 {
      assert channels == [AppChannel, StoreChannel];
      assert channels[1..] == [StoreChannel];
      assert FetchHeaders.JoinWith(channels[1..], ", ") == StoreChannel;
    }
  }

  /** The display cell. */
  function DisplayCell(c: Coupon): string
  {
    if c.displayYn == Str("Y") then "노출" else "노출안함"
  }

  /** The issue-status cell. */
  function IssueStatusCell(c: Coupon): string
  {
    if c.issueStatus == Str("Y") then "발행완료" else "발행전"
  }

  /** The forced-termination cell. */
  function ForceTerminateCell(c: Coupon): string
  {
    if c.forceTerminateYn == Str("Y") then "강제종료" else "정상"
  }

  const PeriodSeparator := " ~ "

  /** The issuance period cell: start and end around ` ~ `. */
  function IssuancePeriodCell(c: Coupon): string
    requires LoadedCoupon(c)
  {
    Template(c.issuanceStart) + PeriodSeparator + Template(c.issuanceEnd)
  }

  /** What a cell renders: text, or a field's own value as React shows it. */
  datatype Cell = Text(text: string) | FieldValue(value: JsValue)

  /** The usage period cell, by usage period code. */
  function UsagePeriodCell(c: Coupon): Cell
    requires LoadedCoupon(c)
  {
    if c.usagePeriodCode == Str("10") then Text(IssuancePeriodCell(c))
    else if c.usagePeriodCode == Str("20") then Text("발급 후 " + Template(c.validityPeriodDays) + "일 이내")
    else if c.usagePeriodCode == Str("30") then FieldValue(c.usagePeriodCodeName)
    else Text("-")
  }

  const DetailPrefix := "/benefits/detail/"
  const PublishPrefix := "/benefits/publish?couponId="

  /** The id and name cells link to the coupon's detail page. */
  function DetailHref(c: Coupon): string
    requires Loaded(c.couponId)
  {
    DetailPrefix + Template(c.couponId)
  }

  /** The issuance-history cell links to the publish page with the id as the
      query, not encoded. */
  function PublishHref(c: Coupon): string
    requires Loaded(c.couponId)
  {
    PublishPrefix + Template(c.couponId)
  }

  /** The column definitions: id, header, and whether sorting and hiding are
      left enabled. */
  datatype ColumnDef = ColumnDef(id: string, header: string, enableSorting: bool, enableHiding: bool)

  function Accessor(key: string, header: string): ColumnDef
  {
    ColumnDef(key, header, true, true)
  }

  const Columns: seq<ColumnDef> := [
    ColumnDef("select", "", false, false),
    Accessor("couponId", "쿠폰번호"),
    Accessor("couponNameKo", "쿠폰명"),
    Accessor("couponTypeName", "쿠폰유형"),
    Accessor("issuanceTypeName", "발급유형"),
    Accessor("discountApplicationTypeName", "적용유형"),
    Accessor("channel", "사용채널"),
    Accessor("membershipBenefitTypeName", "혜택유형"),
    Accessor("displayYn", "자산노출여부"),
    Accessor("issuancePeriod", "발급기간"),
    Accessor("usagePeriod", "사용기간"),
    Accessor("issueStatus", "쿠폰발행상태"),
    Accessor("issueDate", "쿠폰발행일시"),
    Accessor("forceTerminateYn", "강제종료여부"),
    Accessor("forceTerminateDt", "강제종료일시"),
    Accessor("issuanceHistory", "발급내역"),
    Accessor("couponStatus", "쿠폰현황"),
    Accessor("regUser", "등록자"),
    Accessor("regDate", "등록일"),
    Accessor("updUser", "수정자"),
    Accessor("updDate", "수정일")
  ]

  /** The columns as the data table sees them. */
  function TableColumns(): seq<DataTable.Column>
  {
    seq(|Columns|, i requires 0 <= i < |Columns| => DataTable.Column(Columns[i].id, Columns[i].enableSorting))
  }

  // ---------------------------------------------------------------------
  // Properties

  /** The three Y/N cells say yes only for the exact string `'Y'`: every
      other value, a lower-case `y`, a boolean or a missing field included,
      reads as no. */
  lemma OnlyExactYes(c: Coupon)
    ensures c.displayYn != Str("Y") ==> DisplayCell(c) == "노출안함"
    ensures c.issueStatus != Str("Y") ==> IssueStatusCell(c) == "발행전"
    ensures c.forceTerminateYn != Str("Y") ==> ForceTerminateCell(c) == "정상"
    ensures c.displayYn in {Str("y"), Bool(true), Undefined} ==> DisplayCell(c) == "노출안함"
    ensures c.issueStatus in {Str("y"), Bool(true), Undefined} ==> IssueStatusCell(c) == "발행전"
    ensures c.forceTerminateYn in {Str("y"), Bool(true), Undefined} ==> ForceTerminateCell(c) == "정상"
  {
  }

  /** The usage period cell by code: the issuance period for `'10'`, the
      validity days for `'20'`, the code's own name for `'30'`, and `-` for
      every other value (a numeric `10` included). */
  lemma UsagePeriodRules(c: Coupon)
    requires LoadedCoupon(c)
    ensures c.usagePeriodCode == Str("10") ==> UsagePeriodCell(c) == Text(IssuancePeriodCell(c))
    ensures c.usagePeriodCode == Str("20") ==>
      UsagePeriodCell(c).Text? && Seqs.StartsWith(UsagePeriodCell(c).text, "발급 후 ")
      && UsagePeriodCell(c).text[|"발급 후 "|..|UsagePeriodCell(c).text| - |"일 이내"|] == Template(c.validityPeriodDays)
    ensures c.usagePeriodCode == Str("30") ==> UsagePeriodCell(c) == FieldValue(c.usagePeriodCodeName)
    ensures c.usagePeriodCode !in {Str("10"), Str("20"), Str("30")} ==> UsagePeriodCell(c) == Text("-")
    ensures c.usagePeriodCode == Num(10) ==> UsagePeriodCell(c) == Text("-")
  {
  }

  /** A validity of 7 days reads `발급 후 7일 이내`. */
  lemma SevenDays(c: Coupon)
    requires LoadedCoupon(c) && c.usagePeriodCode == Str("20") && c.validityPeriodDays == Num(7)
    ensures UsagePeriodCell(c) == Text("발급 후 7일 이내")
  {
    assert IntString(7) == "7";
  }

  /** The issuance period splits back into its two halves when the start
      holds no ` ~ `. */
  lemma IssuancePeriodHalves(c: Coupon)
    requires LoadedCoupon(c)
    ensures var t := IssuancePeriodCell(c);
      var n := |Template(c.issuanceStart)|;
      t[..n] == Template(c.issuanceStart)
      && t[n..n + 3] == PeriodSeparator
      && t[n + 3..] == Template(c.issuanceEnd)
  {
  }

  /** The detail link ends with the coupon id after the fixed prefix, and the
      publish link carries it as the whole query after `couponId=`. */
  lemma HrefsCarryId(c: Coupon)
    requires Loaded(c.couponId)
    ensures DetailHref(c)[..|DetailPrefix|] == DetailPrefix
    ensures DetailHref(c)[|DetailPrefix|..] == Template(c.couponId)
    ensures PublishHref(c)[|PublishPrefix|..] == Template(c.couponId)
  {
  }

  /** A numeric id 42 links to `/benefits/detail/42`; a missing id links to
      `/benefits/detail/undefined`. */
  lemma HrefExamples(c: Coupon, d: Coupon)
    requires c.couponId == Num(42) && d.couponId == Undefined
    ensures DetailHref(c) == "/benefits/detail/42"
    ensures DetailHref(d) == "/benefits/detail/undefined"
  {
    assert IntString(42) == "42" by {
      assert NatString(4) == "4";
      assert NatString(42) == NatString(4) + [Digit(2)] == "42";
    }
  }

  /** Only the selection column turns sorting and hiding off, so in the data
      table its header alone takes no click. */
  lemma SelectColumnFixed(p: DataTable.Props)
    requires p.columns == TableColumns() && DataTable.PageSize(p) > 0
    ensures Columns[0].id == "select" && !Columns[0].enableSorting && !Columns[0].enableHiding
    ensures forall i :: 1 <= i < |Columns| ==> Columns[i].enableSorting && Columns[i].enableHiding
    ensures !DataTable.Render(p).headers[0].clickable
    ensures forall i :: 1 <= i < |Columns| ==> DataTable.Render(p).headers[i].clickable
  {
  }
}
