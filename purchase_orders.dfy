/** The purchase-order harvester's pure core: the report window from a fixed
    start to the most recent Sunday, and the order filter. */
module PurchaseOrders {
  import opened Py
  import opened Calendar
  import opened DateParse

  /** `Brand`: company name to brand. */
  const Brands: map<string, string> :=
    map["CARBON THEORY LTD" := "Carbon Theory", "COHAR LTD" := "Sosu"]

  /** 2024-01-01, a Monday, as a day number. */
  const StartDay: int := 19723

  lemma StartDayIsNewYear2024()
    ensures DaysOf(Date(2024, 1, 1)) == StartDay && Weekday(StartDay) == 0
  {
    assert LeapsBefore(2024) == 490 && LeapsBefore(1970) == 477;
  }

  /** `(today.weekday() - 6) % 7`: days back to the latest Sunday. Python's
      `%` takes the sign of the divisor, as Dafny's does here. */
  function SinceSunday(weekday: int): (k: int)
    requires 0 <= weekday < 7
    ensures 0 <= k < 7
    ensures (weekday - k) % 7 == 6 % 7
    ensures weekday == 6 <==> k == 0
  {
    (weekday - 6) % 7
  }

  /** The day of the latest Sunday on or before day `today`. */
  function LastSundayDay(today: int): int {
    today - SinceSunday(Weekday(today))
  }

  /** The latest Sunday is a Sunday, at most six days back, and no later
      day up to today is a Sunday. */
  lemma LastSundayIsLatest(today: int)
    ensures var s := LastSundayDay(today);
      Weekday(s) == 6 && today - 6 <= s <= today &&
      forall d :: s < d <= today ==> Weekday(d) != 6
  {
    var k := SinceSunday(Weekday(today));
    var s := today - k;
    assert Weekday(s) == 6 by {
      assert (today + 3) % 7 == Weekday(today);
      assert s + 3 == (today + 3) - k;
    }
    forall d | s < d <= today
      ensures Weekday(d) != 6
    {
      assert (d + 3) - (s + 3) == d - s;
      assert 0 < d - s < 7;
    }
  }

  /** Run on a Sunday, the window ends today. */
  lemma SundayEndsToday(today: int)
    requires Weekday(today) == 6
    ensures LastSundayDay(today) == today
  {
  }

  /** `calculate_date_range()` for the clock reading `now`: from 2024-01-01
      00:00:00 UTC, whatever `now`, to 23:59:59.999999 on the latest Sunday. */
  function PurchaseOrderWindow(now: Instant): (w: Window)
    requires MinDay <= LastSundayDay(now.days)
    ensures w.start == Instant(StartDay, 0, 0, 0, 0)
    ensures w.end.days == LastSundayDay(now.days) && Weekday(w.end.days) == 6
    ensures MicroOfDay(w.end) == MicrosPerDay - 1
  {
    LastSundayIsLatest(now.days);
    Window(Instant(StartDay, 0, 0, 0, 0), Instant(LastSundayDay(now.days), 23, 59, 59, 999999))
  }

  /** The window ends at the last microsecond of a day no later than today's,
      within the past week; on a Sunday that is later than `now` itself. */
  lemma WindowEndNearNow(now: Instant)
    requires MinDay <= LastSundayDay(now.days)
    ensures var w := PurchaseOrderWindow(now);
      now.days - 6 <= w.end.days <= now.days &&
      (Weekday(now.days) == 6 ==> Le(now, w.end))
  {
    LastSundayIsLatest(now.days);
  }

  /** What `valid_purchase_order` would return past its lookup: `None` when no
      date parsed (`invoice_date and ...`), otherwise whether the date lies
      in the window, both ends included. */
  function DateVerdict(received: Option<Instant>, w: Window): (v: Json)
    ensures v.JNull? || v.JBool?
    ensures Truthy(v) <==> received.Some? && InWindow(received.value, w)
  {
    match received
    case None => JNull
    case Some(t) => JBool(InWindow(t, w))
  }

  /** `valid_purchase_order(po, start, end)` as written: a truthy `isVoid`
      gives False; otherwise line 89 reads the undefined name `brand` and
      raises NameError. */
  function ValidPurchaseOrder(po: Dict, w: Window, dateutil: Dateutil): (r: Result<Json>)
    ensures r.Ok? <==> Truthy(Get(po, "isVoid", JBool(false)))
    ensures r.Ok? ==> r.value == JBool(false)
    ensures r.Raise? ==> r.exc == NameError
  {
    var received := ParseDate(Get(po, "fullyReceivedDate", JNull), dateutil);
    if Truthy(Get(po, "isVoid", JBool(false))) then Ok(JBool(false))
    else Raise(NameError)
  }

  /** No order is ever accepted: the call gives False or raises. */
  lemma NoOrderAccepted(po: Dict, w: Window, dateutil: Dateutil)
    ensures var r := ValidPurchaseOrder(po, w, dateutil);
      !(r.Ok? && Truthy(r.value))
  {
  }

  /** A non-void order dated inside the window still raises. */
  lemma InWindowOrderRaises(w: Window, dateutil: Dateutil, s: string)
    requires s != [] && dateutil(s).Naive? && InWindow(dateutil(s).wall, w)
    ensures ValidPurchaseOrder(map["fullyReceivedDate" := JStr(s)], w, dateutil) == Raise(NameError)
  {
  }

  /** `Brand[company]`, the lookup line 89 evidently means: a string key is
      looked up, a list or dict is unhashable, any other value is absent. */
  function BrandOf(company: Json): (r: Result<string>)
    ensures r.Ok? <==> company.JStr? && company.s in Brands
    ensures r.Ok? ==> r.value == Brands[company.s]
    ensures company.JArr? || company.JObj? ==> r == Raise(TypeError)
    ensures !company.JArr? && !company.JObj? && !r.Ok? ==> r == Raise(KeyError)
  {
    match company
    case JStr(s) => if s in Brands then Ok(Brands[s]) else Raise(KeyError)
    case JArr(_) => Raise(TypeError)
    case JObj(_) => Raise(TypeError)
    case _ => Raise(KeyError)
  }

  /** The order filter with the brand table read under its defined name. */
  function ValidPurchaseOrderFixed(po: Dict, w: Window, dateutil: Dateutil): (r: Result<Json>)
  {
    var received := ParseDate(Get(po, "fullyReceivedDate", JNull), dateutil);
    if Truthy(Get(po, "isVoid", JBool(false))) then Ok(JBool(false))
    else
      var brand :- BrandOf(Get(po, "company", JNull));
      Ok(DateVerdict(received, w))
  }

  /** The corrected filter accepts exactly the non-void orders of a known
      company whose received date parses into the window; a void order is
      rejected whatever its date. */
  lemma FixedAcceptsIff(po: Dict, w: Window, dateutil: Dateutil)
    ensures var r := ValidPurchaseOrderFixed(po, w, dateutil);
      var received := ParseDate(Get(po, "fullyReceivedDate", JNull), dateutil);
      (r.Ok? && Truthy(r.value)) <==>
        !Truthy(Get(po, "isVoid", JBool(false))) &&
        Get(po, "company", JNull).JStr? && Get(po, "company", JNull).s in Brands &&
        received.Some? && InWindow(received.value, w)
    ensures Truthy(Get(po, "isVoid", JBool(false))) ==> ValidPurchaseOrderFixed(po, w, dateutil) == Ok(JBool(false))
  {
  }

  /** A non-void order of an unknown company raises KeyError, and one whose
      date does not parse gives the falsy None. */
  lemma FixedErrorCases(po: Dict, w: Window, dateutil: Dateutil)
    requires !Truthy(Get(po, "isVoid", JBool(false)))
    ensures Get(po, "company", JNull).JStr? && Get(po, "company", JNull).s !in Brands ==>
      ValidPurchaseOrderFixed(po, w, dateutil) == Raise(KeyError)
    ensures (BrandOf(Get(po, "company", JNull)).Ok? &&
             ParseDate(Get(po, "fullyReceivedDate", JNull), dateutil).None?) ==>
      ValidPurchaseOrderFixed(po, w, dateutil) == Ok(JNull)
  {
  }
}
