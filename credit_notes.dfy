/** The credit-note harvester: the rolling report window, the validity
    filter, the expansion of one credit note into one flat record per line
    item, the pagination loop for one account and the merge across accounts. */
module CreditNotes {
  import opened Py
  import opened Calendar
  import opened DateParse
  import opened Rounding
  import opened BasicAuth
  import Decimal

  // ---------------------------------------------------------------------
  // Configuration

  const BaseUrl := "https://api.cin7.com/api/v1/CreditNotes"
  const Fields := "id, reference, creditNoteNumber, salesReference, createdDate, company, firstName, lastName,projectName, source, currencyCode, currencyRate, lineItems, discountTotal, completedDate, invoiceNumber"
  const RowsPerPage: nat := 250

  /** One tenant account: its login name and its API key. */
  datatype User = User(username: string, key: string)

  const Usernames: seq<string> :=
    ["AlbertRogerUK", "AlbertRogerNetheEU", "AlbertRogerFrancEU", "AlbertRogerIberiEU"]

  /** `USERS`, given the four keys read from the environment. */
  function ConfiguredUsers(arlKey: string, arnlKey: string, arfKey: string, aribKey: string): (users: seq<User>)
    ensures |users| == 4
    ensures forall i :: 0 <= i < 4 ==> users[i].username == Usernames[i]
    ensures users[0].key == arlKey && users[1].key == arnlKey && users[2].key == arfKey && users[3].key == aribKey
  {
    [User(Usernames[0], arlKey), User(Usernames[1], arnlKey),
     User(Usernames[2], arfKey), User(Usernames[3], aribKey)]
  }

  /** The configured login names contain no ':', so the server can split
      each Basic credential back into name and key. */
  lemma ConfiguredCredentialsRecoverable(i: nat, key: string)
    requires i < 4
    ensures ParseBasic(AuthHeader(Usernames[i], key)["Authorization"]) ==
            Some((Utf8.Encode(Usernames[i]), Utf8.Encode(key)))
  {
    assert ':' !in Usernames[i];
    BasicAuth.CredentialsRecoverable(Usernames[i], key);
  }

  /** Code the model does not contain: dateutil's parser and CPython's
      string-to-float conversion. */
  datatype Foreign = Foreign(dateutil: Dateutil, floatOfStr: FloatOfStr)

  // ---------------------------------------------------------------------
  // Report window

  /** `calculate_date_range()` for the clock reading `now`: from 14:00:00 on
      the day a week before now's, up to 13:59 today with now's own second
      and microsecond 999999. The second is not reset. */
  function CreditNoteWindow(now: Instant): (w: Window)
    requires MinDay + 7 <= now.days
    ensures Micros(w.start) == (now.days - 7) * MicrosPerDay + 14 * 3600 * MicrosPerSecond
    ensures Micros(w.end) == now.days * MicrosPerDay + (13 * 3600 + 59 * 60 + now.second) * MicrosPerSecond + 999999
    ensures w.end.second == now.second
    ensures Lt(w.start, w.end)
    ensures 7 * MicrosPerDay - 60 * MicrosPerSecond < Micros(w.end) - Micros(w.start) < 7 * MicrosPerDay
  {
    Window(Instant(now.days - 7, 14, 0, 0, 0), Instant(now.days, 13, 59, now.second, 999999))
  }

  /** The window computed at 2024-03-15T10:00:00Z runs from 2024-03-08T14:00:00
      to 2024-03-15T13:59:00.999999, the seconds of the clock reading. */
  lemma CreditNoteWindowExample()
    ensures var now := Instant(DaysOf(Date(2024, 3, 15)), 10, 0, 0, 0);
      var w := CreditNoteWindow(now);
      w.start.days == DaysOf(Date(2024, 3, 8)) && w.start.hour == 14 && w.start.minute == 0 &&
      w.end.days == DaysOf(Date(2024, 3, 15)) && w.end.hour == 13 && w.end.minute == 59 &&
      w.end.second == 0 && w.end.micro == 999999
  {
    assert LeapsBefore(2024) == 490 && LeapsBefore(1970) == 477;
    assert DaysBeforeYear(2024) == 19723;
    assert DaysOf(Date(2024, 3, 15)) == 19797 && DaysOf(Date(2024, 3, 8)) == 19790;
  }

  // ---------------------------------------------------------------------
  // Validity

  /** `is_valid_credit_note`: a parseable `completedDate` inside the window.
      No void check. */
  predicate IsValidCreditNote(doc: Dict, w: Window, dateutil: Dateutil) {
    if "completedDate" !in doc then false
    else
      match ParseDate(doc["completedDate"], dateutil)
      case None => false
      case Some(t) => InWindow(t, w)
  }

  /** A credit note without a parseable completion date is never valid. */
  lemma InvalidWithoutDate(doc: Dict, w: Window, dateutil: Dateutil)
    requires "completedDate" !in doc || ParseDate(doc["completedDate"], dateutil).None?
    ensures !IsValidCreditNote(doc, w, dateutil)
  {
  }

  /** With a parsed date, validity is membership of the window, both ends included. */
  lemma ValidIffInWindow(doc: Dict, w: Window, dateutil: Dateutil, t: Instant)
    requires "completedDate" in doc && ParseDate(doc["completedDate"], dateutil) == Some(t)
    ensures IsValidCreditNote(doc, w, dateutil) <==> Micros(w.start) <= Micros(t) <= Micros(w.end)
  {
  }

  /** The void flag plays no part: setting `isVoid` to anything changes nothing. */
  lemma VoidNotConsulted(doc: Dict, w: Window, dateutil: Dateutil, v: Json)
    ensures IsValidCreditNote(doc["isVoid" := v], w, dateutil) == IsValidCreditNote(doc, w, dateutil)
  {
    assert "isVoid" != "completedDate";
  }

  // ---------------------------------------------------------------------
  // Line-item expansion

  const Abbreviations: map<string, string> :=
    map["AlbertRogerUK" := "ARL", "AlbertRogerNetheEU" := "ARNL",
        "AlbertRogerFrancEU" := "ARF", "AlbertRogerIberiEU" := "ARIB"]

  /** `user_abbreviations.get(user_name, user_name)` */
  function Abbreviate(name: string): (r: string)
    ensures r != name <==> name in Abbreviations
    ensures name in Abbreviations ==> r in {"ARL", "ARNL", "ARF", "ARIB"}
  {
    if name in Abbreviations then Abbreviations[name] else name
  }

  /** The four configured accounts get four distinct short names. */
  lemma ConfiguredAbbreviations()
    ensures Abbreviate(Usernames[0]) == "ARL" && Abbreviate(Usernames[1]) == "ARNL"
    ensures Abbreviate(Usernames[2]) == "ARF" && Abbreviate(Usernames[3]) == "ARIB"
  {
  }

  /** The CSV columns, in order (`fieldnames` in `main`). */
  const FieldNames: seq<string> :=
    ["sourceUser", "reference", "creditNoteNumber", "salesReference", "createdDate", "company",
     "firstName", "lastName", "projectName", "channel", "currencyCode", "lineItemcode", "lineItemName",
     "lineItemQty", "lineItemoption3", "lineItemUnitPrice", "lineItemDiscount", "discountTotal", "completedDate"]

  /** One output row, a field per CSV column. */
  datatype Record = Record(
    sourceUser: Json, reference: Json, creditNoteNumber: Json, salesReference: Json,
    createdDate: Json, company: Json, firstName: Json, lastName: Json, projectName: Json,
    channel: Json, currencyCode: Json, lineItemcode: Json, lineItemName: Json,
    lineItemQty: Json, lineItemoption3: Json, lineItemUnitPrice: Json,
    lineItemDiscount: Json, discountTotal: Json, completedDate: Json)

  /** The row as the dictionary handed to `csv.DictWriter`. */
  function RecordDict(r: Record): (d: Dict)
    ensures forall f :: f in d <==> f in FieldNames
  {
    map["sourceUser" := r.sourceUser, "reference" := r.reference,
        "creditNoteNumber" := r.creditNoteNumber, "salesReference" := r.salesReference,
        "createdDate" := r.createdDate, "company" := r.company, "firstName" := r.firstName,
        "lastName" := r.lastName, "projectName" := r.projectName, "channel" := r.channel,
        "currencyCode" := r.currencyCode, "lineItemcode" := r.lineItemcode,
        "lineItemName" := r.lineItemName, "lineItemQty" := r.lineItemQty,
        "lineItemoption3" := r.lineItemoption3, "lineItemUnitPrice" := r.lineItemUnitPrice,
        "lineItemDiscount" := r.lineItemDiscount, "discountTotal" := r.discountTotal,
        "completedDate" := r.completedDate]
  }

  /** What `process_credit_note` computes before its loop. */
  datatype Context = Context(
    user: string,           // abbreviated account name
    rate: real,             // float(currencyRate), default 1
    completed: Option<Instant>, // parse_date(completedDate)
    discountTotal: Json,    // discountTotal, default 0
    count: nat,             // len(lineItems)
    doc: Dict)

  /** `item.get(key, '')` */
  function ItemField(item: Dict, key: string): Json {
    Get(item, key, JStr(""))
  }

  function CompletedText(completed: Option<Instant>): string {
    match completed
    case Some(t) => FormatDayMonthYear(t)
    case None => ""
  }

  /** `round(amount * currency_rate, 2)` */
  function Converted(amount: real, rate: real): real {
    Round2(amount * rate)
  }

  /** The loop body of `process_credit_note` for one line item. */
  function ItemRecord(ctx: Context, item: Json, floatOfStr: FloatOfStr): Result<Record>
    requires ctx.count > 0
  {
    match item
    case JObj(it) =>
      var unitPrice :- ToFloat(Get(it, "unitPrice", JNum(0.0)), floatOfStr);
      var discount :- ToFloat(Get(it, "discount", JNum(0.0)), floatOfStr);
      var share :- TrueDiv(ctx.discountTotal, ctx.count);
      Ok(Record(
        JStr(ctx.user),
        Get(ctx.doc, "reference", JNull),
        Get(ctx.doc, "creditNoteNumber", JNull),
        Get(ctx.doc, "salesReference", JNull),
        ItemField(it, "createdDate"),
        Get(ctx.doc, "company", JNull),
        Get(ctx.doc, "firstName", JNull),
        Get(ctx.doc, "lastName", JNull),
        Get(ctx.doc, "projectName", JNull),
        Get(ctx.doc, "source", JNull),
        Get(ctx.doc, "currencyCode", JNull),
        ItemField(it, "code"),
        ItemField(it, "name"),
        ItemField(it, "qty"),
        ItemField(it, "option3"),
        JNum(Converted(unitPrice, ctx.rate)),
        JNum(-Converted(discount, ctx.rate)),
        JNum(Converted(share, ctx.rate)),
        JStr(CompletedText(ctx.completed))))
    case _ => Raise(AttributeError)
  }

  /** Records for a prefix of the line items; the first item that raises
      aborts the whole document. */
  function ExpandItems(ctx: Context, items: seq<Json>, floatOfStr: FloatOfStr): Result<seq<Record>>
    requires ctx.count > 0 || items == []
  {
    if items == [] then Ok([])
    else
      var done :- ExpandItems(ctx, items[..|items| - 1], floatOfStr);
      var row :- ItemRecord(ctx, items[|items| - 1], floatOfStr);
      Ok(done + [row])
  }

  /** What iterating `credit_note.get('lineItems', [])` yields. A list gives
      its elements; an empty string or dict gives nothing; a non-empty one
      yields strings, whose `.get` raises AttributeError; anything else has
      no `len` (TypeError). */
  function LineItems(v: Json): (r: Result<seq<Json>>)
    ensures v.JArr? ==> r == Ok(v.elems)
    ensures r == Ok([]) <==> v == JArr([]) || v == JStr("") || v == JObj(map[])
    ensures r.Raise? <==> !v.JArr? && v != JStr("") && v != JObj(map[])
    ensures v.JNull? || v.JNum? || v.JBool? ==> r == Raise(TypeError)
    ensures (v.JStr? || v.JObj?) && r.Raise? ==> r == Raise(AttributeError)
  {
    match v
    case JArr(xs) => Ok(xs)
    case JStr(s) => if s == [] then Ok([]) else Raise(AttributeError)
    case JObj(m) => if m == map[] then Ok([]) else Raise(AttributeError)
    case _ => Raise(TypeError)
  }

  function MakeContext(doc: Dict, username: string, foreign: Foreign, rate: real, count: nat): Context {
    Context(Abbreviate(username), rate, ParseDate(Get(doc, "completedDate", JNull), foreign.dateutil),
            Get(doc, "discountTotal", JNum(0.0)), count, doc)
  }

  /** `process_credit_note(credit_note, user_name)`: the records, or the
      exception it raises. */
  function Expand(doc: Dict, username: string, foreign: Foreign): Result<seq<Record>> {
    var rate :- ToFloat(Get(doc, "currencyRate", JNum(1.0)), foreign.floatOfStr);
    var items :- LineItems(Get(doc, "lineItems", JArr([])));
    ExpandItems(MakeContext(doc, username, foreign, rate, |items|), items, foreign.floatOfStr)
  }

  /** Once a prefix raises, so does every longer run. */
  lemma {:induction false} ExpandItemsRaisePersists(ctx: Context, items: seq<Json>, j: nat, floatOfStr: FloatOfStr)
    requires ctx.count > 0 && j <= |items|
    requires ExpandItems(ctx, items[..j], floatOfStr).Raise?
    ensures ExpandItems(ctx, items, floatOfStr) == ExpandItems(ctx, items[..j], floatOfStr)
    decreases |items| - j
  {
    if j < |items| {
      var longer := items[..j + 1];
      assert longer[..|longer| - 1] == items[..j];
      ExpandItemsRaisePersists(ctx, items, j + 1, floatOfStr);
    } else {
      assert items[..j] == items;
    }
  }

  /** `process_credit_note` as the source runs it: a loop appending one
      record per line item. */
  method ProcessCreditNote(doc: Dict, username: string, foreign: Foreign) returns (r: Result<seq<Record>>)
    ensures r == Expand(doc, username, foreign)
  {
    var lineItems := Get(doc, "lineItems", JArr([]));
    var rate := ToFloat(Get(doc, "currencyRate", JNum(1.0)), foreign.floatOfStr);
    if rate.Raise? {
      return Raise(rate.exc);
    }
    var items := LineItems(lineItems);
    if items.Raise? {
      return Raise(items.exc);
    }
    var ctx := MakeContext(doc, username, foreign, rate.value, |items.value|);
    var results: seq<Record> := [];
    for i := 0 to |items.value|
      invariant ExpandItems(ctx, items.value[..i], foreign.floatOfStr) == Ok(results)
    {
      var row := ItemRecord(ctx, items.value[i], foreign.floatOfStr);
      assert items.value[..i + 1][..i] == items.value[..i];
      if row.Raise? {
        ExpandItemsRaisePersists(ctx, items.value, i + 1, foreign.floatOfStr);
        return Raise(row.exc);
      }
      results := results + [row.value];
    }
    assert items.value[..|items.value|] == items.value;
    return Ok(results);
  }

  /** `float(item.get(key, 0))` for a line item that is a dict. */
  function Amount(item: Json, key: string, floatOfStr: FloatOfStr): Result<real> {
    match item
    case JObj(it) => ToFloat(Get(it, key, JNum(0.0)), floatOfStr)
    case _ => Raise(AttributeError)
  }

  /** A line item yields a record exactly when it is a dict whose unit price
      and discount convert to float and the document discount divides. */
  lemma ItemRecordOkIff(ctx: Context, item: Json, floatOfStr: FloatOfStr)
    requires ctx.count > 0
    ensures ItemRecord(ctx, item, floatOfStr).Ok? <==>
      item.JObj? && Amount(item, "unitPrice", floatOfStr).Ok? && Amount(item, "discount", floatOfStr).Ok? &&
      (ctx.discountTotal.JNum? || ctx.discountTotal.JBool?)
  {
  }

  /** What each record holds: the account's short name, the rate-adjusted
      price, the negated rate-adjusted discount, the document's discount share,
      the completion date as DD/MM/YYYY or '', the document's own fields
      (None when absent) and the item's own fields ('' when absent). */
  lemma ItemRecordFields(ctx: Context, item: Json, floatOfStr: FloatOfStr)
    requires ctx.count > 0 && ItemRecord(ctx, item, floatOfStr).Ok?
    ensures var r := ItemRecord(ctx, item, floatOfStr).value;
      item.JObj? &&
      r.sourceUser == JStr(ctx.user) &&
      r.lineItemUnitPrice == JNum(Converted(Amount(item, "unitPrice", floatOfStr).value, ctx.rate)) &&
      r.lineItemDiscount == JNum(-Converted(Amount(item, "discount", floatOfStr).value, ctx.rate)) &&
      r.discountTotal == JNum(Converted(TrueDiv(ctx.discountTotal, ctx.count).value, ctx.rate)) &&
      r.completedDate == JStr(CompletedText(ctx.completed))
  {
  }

  /** The fields a record copies: the document's `reference`,
      `creditNoteNumber`, `salesReference`, `company`, `firstName`,
      `lastName`, `projectName`, `source` (as `channel`) and `currencyCode`,
      None when absent; the item's `code`, `name`, `qty`, `option3` and
      `createdDate`, '' when absent. */
  lemma ItemRecordCopies(ctx: Context, item: Json, floatOfStr: FloatOfStr)
    requires ctx.count > 0 && ItemRecord(ctx, item, floatOfStr).Ok?
    ensures item.JObj?
    ensures var r, doc := ItemRecord(ctx, item, floatOfStr).value, ctx.doc;
      r.reference == (if "reference" in doc then doc["reference"] else JNull) &&
      r.creditNoteNumber == (if "creditNoteNumber" in doc then doc["creditNoteNumber"] else JNull) &&
      r.salesReference == (if "salesReference" in doc then doc["salesReference"] else JNull) &&
      r.company == (if "company" in doc then doc["company"] else JNull) &&
      r.firstName == (if "firstName" in doc then doc["firstName"] else JNull) &&
      r.lastName == (if "lastName" in doc then doc["lastName"] else JNull) &&
      r.projectName == (if "projectName" in doc then doc["projectName"] else JNull) &&
      r.channel == (if "source" in doc then doc["source"] else JNull) &&
      r.currencyCode == (if "currencyCode" in doc then doc["currencyCode"] else JNull)
    ensures var r, it := ItemRecord(ctx, item, floatOfStr).value, item.fields;
      r.lineItemcode == (if "code" in it then it["code"] else JStr("")) &&
      r.lineItemName == (if "name" in it then it["name"] else JStr("")) &&
      r.lineItemQty == (if "qty" in it then it["qty"] else JStr("")) &&
      r.lineItemoption3 == (if "option3" in it then it["option3"] else JStr("")) &&
      r.createdDate == (if "createdDate" in it then it["createdDate"] else JStr(""))
  {
  }

  /** The items' records, one per item and in item order, or the first
      exception. */
  lemma {:induction false} ExpandItemsShape(ctx: Context, items: seq<Json>, floatOfStr: FloatOfStr)
    requires ctx.count > 0 || items == []
    ensures ExpandItems(ctx, items, floatOfStr).Ok? <==>
      forall i :: 0 <= i < |items| ==> ItemRecord(ctx, items[i], floatOfStr).Ok?
    ensures ExpandItems(ctx, items, floatOfStr).Ok? ==>
      var rs := ExpandItems(ctx, items, floatOfStr).value;
      |rs| == |items| && forall i :: 0 <= i < |items| ==> ItemRecord(ctx, items[i], floatOfStr) == Ok(rs[i])
    decreases |items|
  {
    if items != [] {
      var init, last := items[..|items| - 1], items[|items| - 1];
      ExpandItemsShape(ctx, init, floatOfStr);
      assert forall i :: 0 <= i < |init| ==> init[i] == items[i];
      var done, row := ExpandItems(ctx, init, floatOfStr), ItemRecord(ctx, last, floatOfStr);
      if done.Ok? && row.Ok? {
        assert ExpandItems(ctx, items, floatOfStr) == Ok(done.value + [row.value]);
      } else if done.Ok? {
        assert ExpandItems(ctx, items, floatOfStr).Raise?;
      } else {
        assert ExpandItems(ctx, items, floatOfStr).Raise?;
        assert !ItemRecord(ctx, items[0], floatOfStr).Ok? || exists i :: 0 <= i < |init| && !ItemRecord(ctx, init[i], floatOfStr).Ok?;
      }
    }
  }

  /** The line items of a document whose rate and item list evaluate. */
  function ItemsOf(doc: Dict): Result<seq<Json>> {
    LineItems(Get(doc, "lineItems", JArr([])))
  }

  function RateOf(doc: Dict, floatOfStr: FloatOfStr): Result<real> {
    ToFloat(Get(doc, "currencyRate", JNum(1.0)), floatOfStr)
  }

  /** A document expands exactly when its rate converts, its items iterate and
      every item yields a record: one failing item drops the whole document. */
  lemma ExpandOkIff(doc: Dict, username: string, foreign: Foreign)
    ensures Expand(doc, username, foreign).Ok? <==>
      RateOf(doc, foreign.floatOfStr).Ok? && ItemsOf(doc).Ok? &&
      var items := ItemsOf(doc).value;
      var ctx := MakeContext(doc, username, foreign, RateOf(doc, foreign.floatOfStr).value, |items|);
      forall i :: 0 <= i < |items| ==> ItemRecord(ctx, items[i], foreign.floatOfStr).Ok?
  {
    if RateOf(doc, foreign.floatOfStr).Ok? && ItemsOf(doc).Ok? {
      var items := ItemsOf(doc).value;
      ExpandItemsShape(MakeContext(doc, username, foreign, RateOf(doc, foreign.floatOfStr).value, |items|),
                       items, foreign.floatOfStr);
    }
  }

  /** `process_credit_note` runs the item loop in the context built from the
      document's rate and line items. */
  lemma ExpandIsItemLoop(doc: Dict, username: string, foreign: Foreign)
    requires Expand(doc, username, foreign).Ok?
    ensures ItemsOf(doc).Ok? && RateOf(doc, foreign.floatOfStr).Ok?
    ensures var items := ItemsOf(doc).value;
      Expand(doc, username, foreign) ==
        ExpandItems(MakeContext(doc, username, foreign, RateOf(doc, foreign.floatOfStr).value, |items|),
                    items, foreign.floatOfStr)
  {
  }

  /** Every record of a run of items carries the context's short name, its
      item's rate-adjusted price and discount and one shared discount. */
  lemma ExpandItemsRecords(ctx: Context, items: seq<Json>, floatOfStr: FloatOfStr)
    requires ctx.count > 0 && ExpandItems(ctx, items, floatOfStr).Ok?
    ensures var rs := ExpandItems(ctx, items, floatOfStr).value;
      |rs| == |items| &&
      (forall i :: 0 <= i < |rs| ==>
        Amount(items[i], "unitPrice", floatOfStr).Ok? &&
        Amount(items[i], "discount", floatOfStr).Ok? &&
        rs[i].sourceUser == JStr(ctx.user) &&
        rs[i].lineItemUnitPrice == JNum(Converted(Amount(items[i], "unitPrice", floatOfStr).value, ctx.rate)) &&
        rs[i].lineItemDiscount == JNum(-Converted(Amount(items[i], "discount", floatOfStr).value, ctx.rate)) &&
        rs[i].discountTotal == JNum(Converted(TrueDiv(ctx.discountTotal, ctx.count).value, ctx.rate)))
  {
    ExpandItemsShape(ctx, items, floatOfStr);
    var rs := ExpandItems(ctx, items, floatOfStr).value;
    forall i | 0 <= i < |rs|
      ensures Amount(items[i], "unitPrice", floatOfStr).Ok? && Amount(items[i], "discount", floatOfStr).Ok?
      ensures rs[i].sourceUser == JStr(ctx.user)
      ensures rs[i].lineItemUnitPrice == JNum(Converted(Amount(items[i], "unitPrice", floatOfStr).value, ctx.rate))
      ensures rs[i].lineItemDiscount == JNum(-Converted(Amount(items[i], "discount", floatOfStr).value, ctx.rate))
      ensures rs[i].discountTotal == JNum(Converted(TrueDiv(ctx.discountTotal, ctx.count).value, ctx.rate))
    {
      ItemRecordOkIff(ctx, items[i], floatOfStr);
      ItemRecordFields(ctx, items[i], floatOfStr);
    }
  }

  /** One record per line item, in line-item order; every record has the
      account's short name, its item's rate-adjusted price and discount, and
      all share one discount total. */
  lemma ExpandRecords(doc: Dict, username: string, foreign: Foreign)
    requires Expand(doc, username, foreign).Ok?
    ensures ItemsOf(doc).Ok? && RateOf(doc, foreign.floatOfStr).Ok?
    ensures var rs, items, rate := Expand(doc, username, foreign).value, ItemsOf(doc).value,
                                  RateOf(doc, foreign.floatOfStr).value;
      |rs| == |items| &&
      (forall i :: 0 <= i < |rs| ==>
        Amount(items[i], "unitPrice", foreign.floatOfStr).Ok? &&
        Amount(items[i], "discount", foreign.floatOfStr).Ok? &&
        rs[i].sourceUser == JStr(Abbreviate(username)) &&
        rs[i].lineItemUnitPrice == JNum(Converted(Amount(items[i], "unitPrice", foreign.floatOfStr).value, rate)) &&
        rs[i].lineItemDiscount == JNum(-Converted(Amount(items[i], "discount", foreign.floatOfStr).value, rate))) &&
      (forall i, j :: 0 <= i < |rs| && 0 <= j < |rs| ==> rs[i].discountTotal == rs[j].discountTotal)
  {
    ExpandIsItemLoop(doc, username, foreign);
    var items, rate := ItemsOf(doc).value, RateOf(doc, foreign.floatOfStr).value;
    var ctx := MakeContext(doc, username, foreign, rate, |items|);
    if items != [] {
      ExpandItemsRecords(ctx, items, foreign.floatOfStr);
    }
  }

  /** A document with no line items yields no records and divides nothing:
      whatever its discountTotal holds, nothing raises. */
  lemma ExpandNoItems(doc: Dict, username: string, foreign: Foreign, total: Json)
    requires RateOf(doc, foreign.floatOfStr).Ok? && ItemsOf(doc) == Ok([])
    ensures Expand(doc["discountTotal" := total], username, foreign) == Ok([])
  {
    var d := doc["discountTotal" := total];
    assert Get(d, "currencyRate", JNum(1.0)) == Get(doc, "currencyRate", JNum(1.0));
    assert Get(d, "lineItems", JArr([])) == Get(doc, "lineItems", JArr([]));
  }

  /** Unit price 10, discount 1 and rate 2 give a price of 20.00 and a
      discount of -2.00. */
  lemma ExpandExample(username: string, foreign: Foreign)
    ensures var item := JObj(map["unitPrice" := JNum(10.0), "discount" := JNum(1.0)]);
      var doc := map["currencyRate" := JNum(2.0), "lineItems" := JArr([item])];
      Expand(doc, username, foreign).Ok? &&
      |Expand(doc, username, foreign).value| == 1 &&
      Expand(doc, username, foreign).value[0].lineItemUnitPrice == JNum(20.0) &&
      Expand(doc, username, foreign).value[0].lineItemDiscount == JNum(-2.0)
  {
    var item := JObj(map["unitPrice" := JNum(10.0), "discount" := JNum(1.0)]);
    var doc := map["currencyRate" := JNum(2.0), "lineItems" := JArr([item])];
    assert ItemsOf(doc) == Ok([item]);
    assert RateOf(doc, foreign.floatOfStr) == Ok(2.0);
    ExpandOkIff(doc, username, foreign);
    ExpandRecords(doc, username, foreign);
    Round2Cents(2000);
    Round2Cents(200);
    assert 10.0 * 2.0 == 2000 as real / 100.0;
    assert 1.0 * 2.0 == 200 as real / 100.0;
  }

  // ---------------------------------------------------------------------
  // Pagination for one account

  /** What `call_api` returns: the error text, or the decoded JSON body. */
  datatype Response = Failed(message: string) | Body(data: Json)

  /** The HTTP service, seen as a function of the URL and the headers. */
  type Api = (string, Headers) -> Response

  /** The URL of one page, `f'{BASE_URL}?fields={FIELDS}&page={page}&rows={ROWS_PER_PAGE}'`,
      as the text before and after the page number. */
  const UrlPrefix := BaseUrl + "?fields=" + Fields + "&page="
  const UrlSuffix := "&rows=" + Decimal.Show(RowsPerPage)

  function PageUrl(page: nat): string {
    UrlPrefix + Decimal.Show(page) + UrlSuffix
  }

  /** Strings with the same prefix and suffix are equal where they are equal
      in full. */
  lemma MiddleInjective(p: string, x: string, y: string, q: string)
    requires p + x + q == p + y + q
    ensures x == y
  {
    var u, v := p + x + q, p + y + q;
    assert |x| == |y|;
    assert x == u[|p|..|p| + |x|];
    assert y == v[|p|..|p| + |y|];
  }

  /** Distinct pages are requested at distinct URLs. */
  lemma PageUrlInjective(a: nat, b: nat)
    requires PageUrl(a) == PageUrl(b)
    ensures a == b
  {
    MiddleInjective(UrlPrefix, Decimal.Show(a), Decimal.Show(b), UrlSuffix);
    Decimal.ShowInjective(a, b);
  }

  /** The response to the request for `page`, with the account's headers. */
  function Fetch(api: Api, user: User, page: nat): Response {
    api(PageUrl(page), AuthHeader(user.username, user.key))
  }

  /** The loop ends normally after an error or an empty (falsy) body. */
  predicate Terminal(resp: Response) {
    resp.Failed? || !Truthy(resp.data)
  }

  /** The loop also ends, by an uncaught TypeError, on a truthy body that
      cannot be iterated. */
  predicate Stops(resp: Response) {
    Terminal(resp) || resp.data.JNum? || resp.data.JBool?
  }

  /** The records one element of a page contributes. Only a dict whose date
      lies in the window and whose expansion raises nothing contributes; any
      exception is caught and the element skipped. */
  function DocumentRecords(doc: Json, w: Window, username: string, foreign: Foreign): seq<Record> {
    match doc
    case JObj(d) =>
      if IsValidCreditNote(d, w, foreign.dateutil) then
        match Expand(d, username, foreign)
        case Ok(rs) => rs
        case Raise(_) => []
      else []
    case _ => []
  }

  /** The records of a run of page elements, in order. */
  function DocsRecords(docs: seq<Json>, w: Window, username: string, foreign: Foreign): seq<Record>
    decreases |docs|
  {
    if docs == [] then []
    else DocsRecords(docs[..|docs| - 1], w, username, foreign) + DocumentRecords(docs[|docs| - 1], w, username, foreign)
  }

  /** `for credit_note in data`: a list yields its documents; a dict yields
      its keys and a string its characters, none of which is a dict; a
      number or a boolean cannot be iterated. */
  function PageOutcome(resp: Response, w: Window, username: string, foreign: Foreign): (r: Result<seq<Record>>)
    ensures r.Raise? <==> Stops(resp) && !Terminal(resp)
    ensures Terminal(resp) ==> r == Ok([])
  {
    if Terminal(resp) then Ok([])
    else
      match resp.data
      case JArr(docs) => Ok(DocsRecords(docs, w, username, foreign))
      case JNum(_) => Raise(TypeError)
      case JBool(_) => Raise(TypeError)
      case _ => Ok([])
  }

  /** The records gathered from pages 1 to n, or the first exception. */
  function PagesRecords(api: Api, user: User, w: Window, foreign: Foreign, n: nat): Result<seq<Record>>
    decreases n
  {
    if n == 0 then Ok([])
    else
      var earlier :- PagesRecords(api, user, w, foreign, n - 1);
      var here :- PageOutcome(Fetch(api, user, n), w, user.username, foreign);
      Ok(earlier + here)
  }

  /** The account's pages eventually end; without that, the source loops
      forever. */
  ghost predicate Harvestable(api: Api, user: User) {
    exists n: nat :: 1 <= n && Stops(Fetch(api, user, n))
  }

  /** None of the pages 1 to n - 1 ends the loop. */
  ghost predicate NoStopBefore(api: Api, user: User, n: nat)
    decreases n
  {
    n <= 1 || (NoStopBefore(api, user, n - 1) && !Stops(Fetch(api, user, n - 1)))
  }

  lemma {:induction false} NoStopBeforeAt(api: Api, user: User, n: nat, m: nat)
    requires NoStopBefore(api, user, n) && 1 <= m < n
    ensures !Stops(Fetch(api, user, m))
    decreases n
  {
    if m < n - 1 {
      NoStopBeforeAt(api, user, n - 1, m);
    }
  }

  /** Page n is the first page at which the loop ends. */
  ghost predicate FirstStop(api: Api, user: User, n: nat) {
    1 <= n && Stops(Fetch(api, user, n)) && NoStopBefore(api, user, n)
  }

  lemma {:induction false} StopOrClear(api: Api, user: User, n: nat)
    ensures NoStopBefore(api, user, n) || exists m: nat :: m < n && FirstStop(api, user, m)
    decreases n
  {
    if n > 1 {
      StopOrClear(api, user, n - 1);
      if NoStopBefore(api, user, n - 1) && Stops(Fetch(api, user, n - 1)) {
        assert FirstStop(api, user, n - 1);
      }
    }
  }

  lemma FirstStopExists(api: Api, user: User, n: nat)
    requires 1 <= n && Stops(Fetch(api, user, n))
    ensures exists m: nat :: m <= n && FirstStop(api, user, m)
  {
    StopOrClear(api, user, n);
    if NoStopBefore(api, user, n) {
      assert FirstStop(api, user, n);
    }
  }

  /** The loop ends at one page only. */
  lemma FirstStopUnique(api: Api, user: User, a: nat, b: nat)
    requires FirstStop(api, user, a) && FirstStop(api, user, b)
    ensures a == b
  {
    if a < b {
      NoStopBeforeAt(api, user, b, a);
    } else if b < a {
      NoStopBeforeAt(api, user, a, b);
    }
  }

  /** The number of pages the account's loop requests. */
  ghost function StopPage(api: Api, user: User): (n: nat)
    requires Harvestable(api, user)
    ensures FirstStop(api, user, n)
  {
    var k: nat :| 1 <= k && Stops(Fetch(api, user, k));
    FirstStopExists(api, user, k);
    var m: nat :| m <= k && FirstStop(api, user, m);
    m
  }

  /** What `process_user` returns for an account whose clock reads `now`. */
  ghost function UserHarvest(api: Api, user: User, now: Instant, foreign: Foreign): Result<seq<Record>>
    requires MinDay + 7 <= now.days && Harvestable(api, user)
  {
    PagesRecords(api, user, CreditNoteWindow(now), foreign, StopPage(api, user))
  }

  /** Appending the records of one more page that neither ends the loop nor raises. */
  lemma PagesRecordsStep(api: Api, user: User, w: Window, foreign: Foreign, n: nat,
                         earlier: seq<Record>, here: seq<Record>)
    requires 1 <= n && PagesRecords(api, user, w, foreign, n - 1) == Ok(earlier)
    requires !Stops(Fetch(api, user, n))
    requires here == (if Fetch(api, user, n).data.JArr? then
                        DocsRecords(Fetch(api, user, n).data.elems, w, user.username, foreign) else [])
    ensures PagesRecords(api, user, w, foreign, n) == Ok(earlier + here)
  {
  }

  /** The page at which the loop ends adds nothing, or raises. */
  lemma PagesRecordsStop(api: Api, user: User, w: Window, foreign: Foreign, n: nat, earlier: seq<Record>)
    requires 1 <= n && PagesRecords(api, user, w, foreign, n - 1) == Ok(earlier)
    requires Stops(Fetch(api, user, n))
    ensures PagesRecords(api, user, w, foreign, n) ==
      if Terminal(Fetch(api, user, n)) then Ok(earlier) else Raise(TypeError)
  {
    if Terminal(Fetch(api, user, n)) {
      assert earlier + [] == earlier;
    }
  }

  /** The `for credit_note in data` loop over one page that is a list. */
  method ProcessPage(docs: seq<Json>, w: Window, username: string, foreign: Foreign) returns (rs: seq<Record>)
    ensures rs == DocsRecords(docs, w, username, foreign)
  {
    rs := [];
    for j := 0 to |docs|
      invariant rs == DocsRecords(docs[..j], w, username, foreign)
    {
      assert docs[..j + 1][..j] == docs[..j];
      match docs[j] {
        case JObj(d) =>
          if IsValidCreditNote(d, w, foreign.dateutil) {
            var e := ProcessCreditNote(d, username, foreign);
            if e.Ok? {
              rs := rs + e.value;
            }
          }
        case _ =>
      }
    }
    assert docs[..|docs|] == docs;
  }

  /** The URLs of pages 1 to n, in request order. */
  function PageUrls(n: nat): (urls: seq<string>)
    ensures |urls| == n
    decreases n
  {
    if n == 0 then [] else PageUrls(n - 1) + [PageUrl(n)]
  }

  /** The i-th request is for page i + 1, and no URL is requested twice. */
  lemma {:induction false} PageUrlsAt(n: nat)
    ensures forall i :: 0 <= i < n ==> PageUrls(n)[i] == PageUrl(i + 1)
    ensures forall i, j :: 0 <= i < j < n ==> PageUrls(n)[i] != PageUrls(n)[j]
    decreases n
  {
    if n > 0 {
      PageUrlsAt(n - 1);
      var urls := PageUrls(n);
      assert forall i :: 0 <= i < n - 1 ==> urls[i] == PageUrls(n - 1)[i];
      assert forall i :: 0 <= i < n ==> urls[i] == PageUrl(i + 1);
      forall i, j | 0 <= i < j < n
        ensures urls[i] != urls[j]
      {
        if urls[i] == urls[j] {
          PageUrlInjective(i + 1, j + 1);
        }
      }
    }
  }

  /** `process_user(user)`: requests pages 1, 2, ... until an error or an
      empty body, and gathers the records of every valid credit note. */
  method ProcessUser(user: User, now: Instant, api: Api, foreign: Foreign)
    returns (r: Result<seq<Record>>, requested: seq<string>)
    requires MinDay + 7 <= now.days
    requires Harvestable(api, user)
    ensures |requested| == StopPage(api, user)
    ensures requested == PageUrls(|requested|)
    ensures r == UserHarvest(api, user, now, foreign)
  {
    var headers := AuthHeader(user.username, user.key);
    var w := CreditNoteWindow(now);
    var all: seq<Record> := [];
    var page: nat := 1;
    requested := [];
    ghost var bound := StopPage(api, user);
    while true
      invariant 1 <= page <= bound
      invariant requested == PageUrls(page - 1)
      invariant NoStopBefore(api, user, page)
      invariant PagesRecords(api, user, w, foreign, page - 1) == Ok(all)
      decreases bound - page
    {
      var url := PageUrl(page);
      requested := requested + [url];
      var resp := api(url, headers);
      assert resp == Fetch(api, user, page);
      if Stops(resp) {
        FirstStopUnique(api, user, page, bound);
        PagesRecordsStop(api, user, w, foreign, page, all);
        if Terminal(resp) {
          return Ok(all), requested;
        }
        return Raise(TypeError), requested;
      }
      var here: seq<Record> := [];
      if resp.data.JArr? {
        here := ProcessPage(resp.data.elems, w, user.username, foreign);
      }
      PagesRecordsStep(api, user, w, foreign, page, all, here);
      all := all + here;
      assert page != bound by {
        assert Stops(Fetch(api, user, bound));
      }
      page := page + 1;
    }
  }

  /** The loop ends normally at once when the first request already fails. */
  lemma FirstPageFailure(api: Api, user: User, now: Instant, foreign: Foreign)
    requires MinDay + 7 <= now.days
    requires Fetch(api, user, 1).Failed?
    ensures Harvestable(api, user)
    ensures StopPage(api, user) == 1 && UserHarvest(api, user, now, foreign) == Ok([])
  {
    assert FirstStop(api, user, 1);
    FirstStopUnique(api, user, 1, StopPage(api, user));
    var w := CreditNoteWindow(now);
    assert PageOutcome(Fetch(api, user, 1), w, user.username, foreign) == Ok([]);
    assert PagesRecords(api, user, w, foreign, 0) == Ok([]);
    var none: seq<Record> := [];
    assert none + none == none;
    assert PagesRecords(api, user, w, foreign, 1) == Ok(none + none);
    assert UserHarvest(api, user, now, foreign) == PagesRecords(api, user, w, foreign, StopPage(api, user));
  }

  /** A record as the harvest produces it: it names the account by its short
      name and carries, as DD/MM/YYYY, a completion instant inside the window. */
  ghost predicate Harvested(rec: Record, w: Window, username: string) {
    rec.sourceUser == JStr(Abbreviate(username)) &&
    exists t :: InWindow(t, w) && rec.completedDate == JStr(FormatDayMonthYear(t))
  }

  lemma ExpandHarvested(d: Dict, w: Window, username: string, foreign: Foreign)
    requires IsValidCreditNote(d, w, foreign.dateutil) && Expand(d, username, foreign).Ok?
    ensures forall k :: 0 <= k < |Expand(d, username, foreign).value| ==>
      Harvested(Expand(d, username, foreign).value[k], w, username)
  {
    ExpandIsItemLoop(d, username, foreign);
    var items := ItemsOf(d).value;
    var ctx := MakeContext(d, username, foreign, RateOf(d, foreign.floatOfStr).value, |items|);
    var t := ParseDate(d["completedDate"], foreign.dateutil).value;
    assert ctx.completed == Some(t) && InWindow(t, w);
    if items != [] {
      ExpandItemsShape(ctx, items, foreign.floatOfStr);
      var rs := Expand(d, username, foreign).value;
      forall k | 0 <= k < |rs|
        ensures Harvested(rs[k], w, username)
      {
        ItemRecordFields(ctx, items[k], foreign.floatOfStr);
        assert rs[k].completedDate == JStr(FormatDayMonthYear(t));
      }
    }
  }

  ghost predicate AllHarvested(rs: seq<Record>, w: Window, username: string) {
    forall k :: 0 <= k < |rs| ==> Harvested(rs[k], w, username)
  }

  lemma HarvestedConcat(a: seq<Record>, b: seq<Record>, w: Window, username: string)
    requires AllHarvested(a, w, username) && AllHarvested(b, w, username)
    ensures AllHarvested(a + b, w, username)
  {
    forall k | 0 <= k < |a + b|
      ensures Harvested((a + b)[k], w, username)
    {
      if k >= |a| {
        assert (a + b)[k] == b[k - |a|];
      }
    }
  }

  lemma DocumentHarvested(doc: Json, w: Window, username: string, foreign: Foreign)
    ensures AllHarvested(DocumentRecords(doc, w, username, foreign), w, username)
  {
    if doc.JObj? && IsValidCreditNote(doc.fields, w, foreign.dateutil) && Expand(doc.fields, username, foreign).Ok? {
      ExpandHarvested(doc.fields, w, username, foreign);
    }
  }

  lemma {:induction false} DocsHarvested(docs: seq<Json>, w: Window, username: string, foreign: Foreign)
    ensures AllHarvested(DocsRecords(docs, w, username, foreign), w, username)
    decreases |docs|
  {
    if docs != [] {
      var init, last := docs[..|docs| - 1], docs[|docs| - 1];
      DocsHarvested(init, w, username, foreign);
      DocumentHarvested(last, w, username, foreign);
      HarvestedConcat(DocsRecords(init, w, username, foreign), DocumentRecords(last, w, username, foreign), w, username);
    }
  }

  lemma {:induction false} PagesHarvested(api: Api, user: User, w: Window, foreign: Foreign, n: nat)
    requires PagesRecords(api, user, w, foreign, n).Ok?
    ensures AllHarvested(PagesRecords(api, user, w, foreign, n).value, w, user.username)
    decreases n
  {
    if n > 0 {
      PagesHarvested(api, user, w, foreign, n - 1);
      var resp := Fetch(api, user, n);
      var here := PageOutcome(resp, w, user.username, foreign);
      if !Terminal(resp) && resp.data.JArr? {
        DocsHarvested(resp.data.elems, w, user.username, foreign);
      }
      assert AllHarvested(here.value, w, user.username);
      HarvestedConcat(PagesRecords(api, user, w, foreign, n - 1).value, here.value, w, user.username);
    }
  }

  /** Everything one account yields is a credit note of that account
      completed inside its window. */
  lemma UserHarvestHarvested(api: Api, user: User, now: Instant, foreign: Foreign)
    requires MinDay + 7 <= now.days && Harvestable(api, user)
    requires UserHarvest(api, user, now, foreign).Ok?
    ensures AllHarvested(UserHarvest(api, user, now, foreign).value, CreditNoteWindow(now), user.username)
  {
    PagesHarvested(api, user, CreditNoteWindow(now), foreign, StopPage(api, user));
  }

  // ---------------------------------------------------------------------
  // Merge and output file

  const OutputDir := "tmp_files"

  /** `f"Credit_Notes_FF_{start:%Y%m%d}_{end:%y%m%d}.csv"` */
  function FileName(w: Window): (name: string)
    ensures |name| == 35
    ensures name[..16] == "Credit_Notes_FF_" && name[24] == '_' && name[31..] == ".csv"
    ensures name[16..24] == FormatYearMonthDay(w.start) && name[25..31] == FormatShortYearMonthDay(w.end)
  {
    var a, b := FormatYearMonthDay(w.start), FormatShortYearMonthDay(w.end);
    FileNameParts("Credit_Notes_FF_", a, "_", b, ".csv");
    "Credit_Notes_FF_" + a + "_" + b + ".csv"
  }

  /** Where each part of the file name sits. */
  lemma FileNameParts(p: string, a: string, m: string, b: string, q: string)
    requires |p| == 16 && |a| == 8 && |m| == 1 && |b| == 6 && |q| == 4
    ensures var s := p + a + m + b + q;
      |s| == 35 && s[..16] == p && s[16..24] == a && s[24] == m[0] && s[25..31] == b && s[31..] == q
  {
  }

  /** The window's dates can be read back from fixed positions of the file name. */
  lemma FileNameDates(w: Window)
    ensures var name, s, e := FileName(w), DateOf(w.start.days), DateOf(w.end.days);
      Decimal.Value(name[16..20]) == s.year && Decimal.Value(name[20..22]) == s.month &&
      Decimal.Value(name[22..24]) == s.day &&
      Decimal.Value(name[25..27]) == e.year % 100 && Decimal.Value(name[27..29]) == e.month &&
      Decimal.Value(name[29..31]) == e.day
  {
    var name, a, b := FileName(w), FormatYearMonthDay(w.start), FormatShortYearMonthDay(w.end);
    assert name[16..20] == a[..4] && name[20..22] == a[4..6] && name[22..24] == a[6..];
    assert name[25..27] == b[..2] && name[27..29] == b[2..4] && name[29..31] == b[4..];
  }

  /** One worker of `main`'s pool: an account and the clock reading that
      its `process_user` call takes. */
  datatype Session = Session(user: User, now: Instant)

  /** The pool's workers run exactly the given accounts, in order. */
  predicate SessionsFor(sessions: seq<Session>, users: seq<User>) {
    |sessions| == |users| && forall i :: 0 <= i < |sessions| ==> sessions[i].user == users[i]
  }

  /** Every account's window is defined and every account's pages end. */
  ghost predicate Runnable(api: Api, sessions: seq<Session>) {
    forall i :: 0 <= i < |sessions| ==> MinDay + 7 <= sessions[i].now.days && Harvestable(api, sessions[i].user)
  }

  /** The records `main` gathers: each account's harvest in `USERS` order; the
      first account whose harvest raises makes `main` raise. */
  ghost function MergeUsers(api: Api, sessions: seq<Session>, foreign: Foreign): Result<seq<Record>>
    requires Runnable(api, sessions)
    decreases |sessions|
  {
    if sessions == [] then Ok([])
    else
      var last := sessions[|sessions| - 1];
      var earlier :- MergeUsers(api, sessions[..|sessions| - 1], foreign);
      var mine :- UserHarvest(api, last.user, last.now, foreign);
      Ok(earlier + mine)
  }

  lemma {:induction false} MergeRaisePersists(api: Api, sessions: seq<Session>, foreign: Foreign, j: nat)
    requires Runnable(api, sessions) && j <= |sessions|
    requires MergeUsers(api, sessions[..j], foreign).Raise?
    ensures MergeUsers(api, sessions, foreign) == MergeUsers(api, sessions[..j], foreign)
    decreases |sessions| - j
  {
    if j < |sessions| {
      var longer := sessions[..j + 1];
      assert longer[..j] == sessions[..j];
      MergeRaisePersists(api, sessions, foreign, j + 1);
    } else {
      assert sessions[..j] == sessions;
    }
  }

  /** The record was harvested for one of the sessions' accounts. */
  ghost predicate FromSomeAccount(rec: Record, sessions: seq<Session>) {
    exists i :: 0 <= i < |sessions| && MinDay + 7 <= sessions[i].now.days &&
      Harvested(rec, CreditNoteWindow(sessions[i].now), sessions[i].user.username)
  }

  lemma FromSomeAccountPrefix(rec: Record, sessions: seq<Session>, n: nat)
    requires n <= |sessions| && FromSomeAccount(rec, sessions[..n])
    ensures FromSomeAccount(rec, sessions)
  {
    var init := sessions[..n];
    var i :| 0 <= i < n && MinDay + 7 <= init[i].now.days &&
      Harvested(rec, CreditNoteWindow(init[i].now), init[i].user.username);
    assert init[i] == sessions[i];
  }

  lemma FromLastAccount(api: Api, sessions: seq<Session>, foreign: Foreign, rs: seq<Record>)
    requires sessions != [] && Runnable(api, sessions)
    requires var last := sessions[|sessions| - 1];
      UserHarvest(api, last.user, last.now, foreign) == Ok(rs)
    ensures forall k :: 0 <= k < |rs| ==> FromSomeAccount(rs[k], sessions)
  {
    var n := |sessions| - 1;
    UserHarvestHarvested(api, sessions[n].user, sessions[n].now, foreign);
    forall k | 0 <= k < |rs|
      ensures FromSomeAccount(rs[k], sessions)
    {
      assert Harvested(rs[k], CreditNoteWindow(sessions[n].now), sessions[n].user.username);
    }
  }

  /** Every merged record is a credit note of one of the accounts, completed
      inside that account's window. */
  lemma {:induction false} MergeHarvested(api: Api, sessions: seq<Session>, foreign: Foreign)
    requires Runnable(api, sessions) && MergeUsers(api, sessions, foreign).Ok?
    ensures var rs := MergeUsers(api, sessions, foreign).value;
      forall k :: 0 <= k < |rs| ==> FromSomeAccount(rs[k], sessions)
    decreases |sessions|
  {
    if sessions != [] {
      var n := |sessions| - 1;
      var init, last := sessions[..n], sessions[n];
      MergeHarvested(api, init, foreign);
      var a, b := MergeUsers(api, init, foreign).value, UserHarvest(api, last.user, last.now, foreign).value;
      FromLastAccount(api, sessions, foreign, b);
      assert MergeUsers(api, sessions, foreign).value == a + b;
      FromSomeAccountConcat(a, b, sessions, n);
    }
  }

  /** Records from the first n accounts, followed by records from any of
      them, are all from some account. */
  lemma FromSomeAccountConcat(a: seq<Record>, b: seq<Record>, sessions: seq<Session>, n: nat)
    requires n <= |sessions|
    requires forall k :: 0 <= k < |a| ==> FromSomeAccount(a[k], sessions[..n])
    requires forall k :: 0 <= k < |b| ==> FromSomeAccount(b[k], sessions)
    ensures forall k :: 0 <= k < |a + b| ==> FromSomeAccount((a + b)[k], sessions)
  {
    forall k | 0 <= k < |a + b|
      ensures FromSomeAccount((a + b)[k], sessions)
    {
      if k < |a| {
        FromSomeAccountPrefix(a[k], sessions, n);
      } else {
        assert (a + b)[k] == b[k - |a|];
      }
    }
  }

  /** One more account: its harvest joins the merge, or its exception ends it. */
  lemma MergeUsersStep(api: Api, sessions: seq<Session>, foreign: Foreign, i: nat)
    requires Runnable(api, sessions) && i < |sessions|
    ensures var s := sessions[i];
      MergeUsers(api, sessions[..i + 1], foreign) ==
        match MergeUsers(api, sessions[..i], foreign)
        case Raise(e) => Raise(e)
        case Ok(earlier) =>
          match UserHarvest(api, s.user, s.now, foreign)
          case Raise(e) => Raise(e)
          case Ok(mine) => Ok(earlier + mine)
  {
    var longer := sessions[..i + 1];
    assert longer[..i] == sessions[..i];
    assert longer[i] == sessions[i];
  }

  /** Over the configured accounts, every merged record names one of the four
      short account names. */
  lemma ConfiguredMergeShortNames(api: Api, sessions: seq<Session>, foreign: Foreign,
                                  arlKey: string, arnlKey: string, arfKey: string, aribKey: string)
    requires SessionsFor(sessions, ConfiguredUsers(arlKey, arnlKey, arfKey, aribKey))
    requires Runnable(api, sessions) && MergeUsers(api, sessions, foreign).Ok?
    ensures var rs := MergeUsers(api, sessions, foreign).value;
      forall k :: 0 <= k < |rs| ==>
        rs[k].sourceUser == JStr("ARL") || rs[k].sourceUser == JStr("ARNL") ||
        rs[k].sourceUser == JStr("ARF") || rs[k].sourceUser == JStr("ARIB")
  {
    MergeHarvested(api, sessions, foreign);
    var rs := MergeUsers(api, sessions, foreign).value;
    forall k | 0 <= k < |rs|
      ensures rs[k].sourceUser == JStr("ARL") || rs[k].sourceUser == JStr("ARNL") ||
              rs[k].sourceUser == JStr("ARF") || rs[k].sourceUser == JStr("ARIB")
    {
      ConfiguredShortName(rs[k], sessions, ConfiguredUsers(arlKey, arnlKey, arfKey, aribKey));
    }
  }

  lemma ConfiguredShortName(rec: Record, sessions: seq<Session>, users: seq<User>)
    requires |users| == 4 && forall i :: 0 <= i < 4 ==> users[i].username == Usernames[i]
    requires SessionsFor(sessions, users) && FromSomeAccount(rec, sessions)
    ensures rec.sourceUser == JStr("ARL") || rec.sourceUser == JStr("ARNL") ||
            rec.sourceUser == JStr("ARF") || rec.sourceUser == JStr("ARIB")
  {
    var i :| 0 <= i < |sessions| && MinDay + 7 <= sessions[i].now.days &&
      Harvested(rec, CreditNoteWindow(sessions[i].now), sessions[i].user.username);
    assert rec.sourceUser == JStr(Abbreviate(Usernames[i]));
    ConfiguredAbbreviations();
  }

  /** `main()` up to the CSV writer: the output path from main's own clock
      reading `now`, and the accounts' harvests joined in account order. */
  method Run(now: Instant, sessions: seq<Session>, api: Api, foreign: Foreign)
    returns (outputPath: string, r: Result<seq<Record>>)
    requires MinDay + 7 <= now.days
    requires Runnable(api, sessions)
    ensures outputPath == OutputDir + "/" + FileName(CreditNoteWindow(now))
    ensures r == MergeUsers(api, sessions, foreign)
  {
    outputPath := OutputDir + "/" + FileName(CreditNoteWindow(now));
    var all: seq<Record> := [];
    for i := 0 to |sessions|
      invariant MergeUsers(api, sessions[..i], foreign) == Ok(all)
    {
      var mine, _ := ProcessUser(sessions[i].user, sessions[i].now, api, foreign);
      MergeUsersStep(api, sessions, foreign, i);
      if mine.Raise? {
        MergeRaisePersists(api, sessions, foreign, i + 1);
        return outputPath, Raise(mine.exc);
      }
      all := all + mine.value;
    }
    assert sessions[..|sessions|] == sessions;
    r := Ok(all);
  }

  /** Every row handed to the CSV writer has exactly the header's columns, so
      `DictWriter` never rejects it. */
  lemma RowsMatchHeader(rs: seq<Record>)
    ensures forall k :: 0 <= k < |rs| ==>
      (forall f :: f in RecordDict(rs[k]) <==> f in FieldNames)
  {
  }
}
