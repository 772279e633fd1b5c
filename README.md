# Cin7 credit-note and purchase-order harvesters, modelled in Dafny

The repository pulls documents from the Cin7 REST API for four tenant
accounts and writes one CSV report.

The credit-note harvester works in these steps:
- It builds an HTTP Basic header from each account's name and key.
- It computes a rolling report window: from 14:00 UTC seven days ago up to 13:59 today.
- For each account, it requests pages of 250 documents until the API fails or returns an empty page.
- It keeps the credit notes whose completion date lies in the window.
- It expands each kept note into one flat record per line item. Prices are converted by the currency rate, and the note's discount total is shared out per item.
- It joins the accounts' records in account order and names the output file after the window.

The purchase-order harvester shares the header and date parsing. Its window
runs from 2024-01-01 to the most recent Sunday at 23:59:59.999999. Its order
filter checks the void flag first. It then reads an undefined name, so it
raises for every order that is not void.

The model is split into these modules:
- `Py`: decoded JSON values, Python truthiness, `dict.get`, `float()`, true division, and exceptions as a `Result`.
- `Decimal`: `str(n)` and zero-padded fields, with their read-back.
- `Base64`: section 4 of RFC 4648.
- `Utf8`: RFC 3629 encoding of code points.
- `BasicAuth`: section 2 of RFC 7617.
- `Calendar`: UTC instants within Python's `datetime` range, civil dates, weekdays and `strftime` fields.
- `DateParse`: `parse_date`, with dateutil's parser as a parameter.
- `Rounding`: `round(x, 2)` as round-half-even on reals.
- `CreditNotes`: the window, the filter, the item expander (a method proved against a function), the paging loop (a method), and `main`'s merge and file name.
- `PurchaseOrders`: the purchase-order window and the order filter.

Code the model cannot see enters as parameters:
- the HTTP service, as a function from URL and headers to a response;
- dateutil's parser;
- CPython's string-to-float conversion;
- the clock readings.

Three behaviours of the code worth knowing, which the model keeps:
- The credit-note window end keeps the seconds of the clock reading. The hour, the minute and the microsecond are replaced, but the second is not (Credit_Notes/CRN_FF.py:77), so the end is 13:59:SS.999999 rather than 13:59:59.999999.
- `process_user` computes the window itself (Credit_Notes/CRN_FF.py:151). Each account therefore has its own clock reading, and `main` has one more for the file name. The windows are not one shared value.
- The credit-note filter has no void check. Only the date matters (Credit_Notes/CRN_FF.py:81-91).

## Model

| member | source | states |
|---|---|---|
| BasicAuth.AuthHeader | Credit_Notes/CRN_FF.py:36-39 | exactly the keys Authorization and Content-Type; the content type is application/json; the authorization is "Basic " followed by the RFC 4648 Base64 encoding of the UTF-8 bytes of `username:key`, which decodes back to those bytes; Purchases/Brand_All_PO.py:42-45 is the same function |
| CreditNotes.ConfiguredUsers | Credit_Notes/CRN_FF.py:28-33 | four accounts, carrying the four configured login names in order, each paired with its own key: ARL_KEY with AlbertRogerUK, ARNL_KEY with AlbertRogerNetheEU, ARF_KEY with AlbertRogerFrancEU, ARIB_KEY with AlbertRogerIberiEU |
| BasicAuth.CredentialsRecoverable | Credit_Notes/CRN_FF.py:37-39 | a server splitting the decoded credential at its first colon recovers the user name and key exactly, when the name has no colon |
| CreditNotes.ConfiguredCredentialsRecoverable | Credit_Notes/CRN_FF.py:28-39 | the four configured account names contain no colon, so each header splits back into that name and its key |
| Base64.Encode | Credit_Notes/CRN_FF.py:38 | `base64.b64encode` of n octets is 4 * ((n + 2) / 3) characters, one group of four per three octets or fewer |
| Base64.DecodeEncode | Credit_Notes/CRN_FF.py:38 | decoding the Base64 encoding of any bytes gives those bytes back |
| Base64.EncodeAlphabet | Credit_Notes/CRN_FF.py:38 | an encoding is alphabet characters followed by exactly (3 - n mod 3) mod 3 padding characters |
| Utf8.Encode | Credit_Notes/CRN_FF.py:38 | `.encode('utf-8')` of n characters is between n and 4n bytes, and ASCII text is encoded byte for byte |
| Utf8.AsciiByteIffChar | Credit_Notes/CRN_FF.py:38 | a byte below 0x80, such as the colon, occurs in the UTF-8 encoding exactly when that character occurs in the text |
| DateParse.ParseDate | Credit_Notes/CRN_FF.py:51-69 | None for falsy or non-string input and whenever the parse cannot be placed in UTC; a naive result is read as UTC; an aware one keeps its point on the timeline; Purchases/Brand_All_PO.py:57-69 is the same function, which turns every exception into None |
| DateParse.ParseUtcUnchanged | Credit_Notes/CRN_FF.py:59-60 | a result already in UTC comes back unchanged |
| Calendar.FromMicros | Credit_Notes/CRN_FF.py:60 | the instant m microseconds after the epoch exists exactly inside Python's datetime range and lies at m on the timeline |
| Calendar.DateOfDaysOf | Credit_Notes/CRN_FF.py:143 | the civil date recovered from a valid date's day number is that date |
| Calendar.Weekday | Purchases/Brand_All_PO.py:75 | `weekday()` lies in 0..6 |
| Calendar.WeekdayStep | Purchases/Brand_All_PO.py:75 | each day has the weekday after the previous day's, cyclically |
| Calendar.EpochIsThursday | Purchases/Brand_All_PO.py:75 | day 0 is 1970-01-01 and has weekday 3, a Thursday |
| Calendar.WeekdayOfDate | Purchases/Brand_All_PO.py:75 | for every valid date, `weekday()` equals Sakamoto's independent day-of-week formula shifted to a Monday start, so Monday is 0 and Sunday 6 |
| Calendar.FormatYearMonthDay | Credit_Notes/CRN_FF.py:188 | `%Y%m%d` is eight digits reading back as the date's year, month and day |
| Calendar.FormatShortYearMonthDay | Credit_Notes/CRN_FF.py:188 | `%y%m%d` is six digits reading back as the year within its century, the month and the day |
| Calendar.FormatDayMonthYear | Credit_Notes/CRN_FF.py:143 | `%d/%m/%Y` is ten characters with slashes at 2 and 5, and each field reads back as the date's day, month and year |
| CreditNotes.CreditNoteWindow | Credit_Notes/CRN_FF.py:72-78 | start is 14:00:00.000000 seven days before now's date; end is today's 13:59 with now's second and microsecond 999999; start precedes end by just under seven days |
| CreditNotes.CreditNoteWindowExample | Credit_Notes/CRN_FF.py:72-78 | the window computed at 2024-03-15T10:00:00 runs from 2024-03-08 14:00 to 2024-03-15 13:59:00.999999 |
| CreditNotes.ValidIffInWindow | Credit_Notes/CRN_FF.py:81-91 | with a parsed completion date, a credit note is valid exactly when start <= date <= end, both ends included |
| CreditNotes.InvalidWithoutDate | Credit_Notes/CRN_FF.py:82-89 | a note without completedDate or with an unparseable one is never valid |
| CreditNotes.VoidNotConsulted | Credit_Notes/CRN_FF.py:81-91 | setting isVoid to any value leaves validity unchanged |
| CreditNotes.Abbreviate | Credit_Notes/CRN_FF.py:101-109 | the name changes exactly when it is one of the four configured accounts, and then becomes ARL, ARNL, ARF or ARIB |
| CreditNotes.ConfiguredAbbreviations | Credit_Notes/CRN_FF.py:101-106 | the four accounts map to ARL, ARNL, ARF and ARIB in order |
| CreditNotes.LineItems | Credit_Notes/CRN_FF.py:95-116 | a list yields its elements; an empty string or dict yields nothing; a non-empty string or dict raises AttributeError at the first `item.get`; None, a number or a boolean raise TypeError at `len` |
| CreditNotes.RecordDict | Credit_Notes/CRN_FF.py:124-144 | every record dictionary has exactly the columns of the CSV header as keys |
| CreditNotes.ProcessCreditNote | Credit_Notes/CRN_FF.py:94-145 | the loop over line items returns exactly the expansion function's result: the records or the first exception |
| CreditNotes.ItemRecordOkIff | Credit_Notes/CRN_FF.py:114-122 | one line item yields a record exactly when it is a dict whose unitPrice and discount convert to float and the discount total is a number |
| CreditNotes.ItemRecordFields | Credit_Notes/CRN_FF.py:115-143 | a record carries the short account name, the rate-converted price, the negated rate-converted discount, the rate-converted share of the discount total, and the completion date as DD/MM/YYYY or '' |
| CreditNotes.ItemRecordCopies | Credit_Notes/CRN_FF.py:124-139 | a record copies the document's reference, number, sales reference, company, names, project, source and currency code (None when absent) and the item's code, name, qty, option3 and createdDate ('' when absent) |
| CreditNotes.ExpandItemsShape | Credit_Notes/CRN_FF.py:114-145 | the items expand exactly when every item yields a record; then there is one record per item, in item order |
| CreditNotes.ExpandItemsRaisePersists | Credit_Notes/CRN_FF.py:114-116 | once an item raises, the whole document raises with that exception |
| CreditNotes.ExpandOkIff | Credit_Notes/CRN_FF.py:94-145 | a document expands exactly when its rate converts, its line items can be iterated and every item yields a record |
| CreditNotes.ExpandRecords | Credit_Notes/CRN_FF.py:109-145 | one record per line item, each with the short name and its item's converted price and discount, all sharing one discount total |
| CreditNotes.ExpandNoItems | Credit_Notes/CRN_FF.py:112-122 | a document without line items yields no records whatever its discount total holds, so the division by zero items never happens |
| CreditNotes.ExpandExample | Credit_Notes/CRN_FF.py:115-141 | a unit price of 10, a discount of 1 and a rate of 2 give 20.00 and -2.00 |
| CreditNotes.PageUrlInjective | Credit_Notes/CRN_FF.py:156 | distinct pages are requested at distinct URLs |
| CreditNotes.PageUrlsAt | Credit_Notes/CRN_FF.py:153-176 | the i-th request is for page i + 1, and no URL is requested twice |
| CreditNotes.PageOutcome | Credit_Notes/CRN_FF.py:159-174 | a page raises exactly when it is a truthy body that cannot be iterated; an API error or an empty body adds nothing |
| CreditNotes.ProcessPage | Credit_Notes/CRN_FF.py:169-174 | the loop over one page's documents yields the in-order concatenation of the expansions of its valid documents; a document that raises adds nothing |
| CreditNotes.FirstStopUnique | Credit_Notes/CRN_FF.py:155-167 | the paging loop ends at one page only |
| CreditNotes.ProcessUser | Credit_Notes/CRN_FF.py:149-179 | requests pages 1, 2, ... in order up to the first page that fails, is empty or cannot be iterated; returns the records of the pages before it, except that a truthy body that cannot be iterated raises TypeError, because that loop runs outside the `try` |
| CreditNotes.FirstPageFailure | Credit_Notes/CRN_FF.py:159-163 | when the first request fails, one page is requested and no records come back |
| CreditNotes.UserHarvestHarvested | Credit_Notes/CRN_FF.py:149-179 | every record an account yields names the account by its short name and carries a completion date inside the window |
| CreditNotes.MergeRaisePersists | Credit_Notes/CRN_FF.py:196-200 | once one account raises, the whole run raises with that exception |
| CreditNotes.FileName | Credit_Notes/CRN_FF.py:188 | the file name is 35 characters: the fixed prefix, the start as YYYYMMDD, an underscore, the end as YYMMDD and ".csv" |
| CreditNotes.FileNameDates | Credit_Notes/CRN_FF.py:188 | the window's start date and the end's two-digit year, month and day read back from fixed positions of the name |
| CreditNotes.Run | Credit_Notes/CRN_FF.py:182-200 | the output path is the file name under tmp_files; the records are the accounts' harvests joined in account order, or the first account's exception |
| CreditNotes.MergeHarvested | Credit_Notes/CRN_FF.py:196-200 | every merged record is a credit note of one of the accounts, completed inside that account's window |
| CreditNotes.ConfiguredMergeShortNames | Credit_Notes/CRN_FF.py:101-109 | when the sessions are the four configured accounts in order, every merged record names ARL, ARNL, ARF or ARIB as its user |
| CreditNotes.RowsMatchHeader | Credit_Notes/CRN_FF.py:184-207 | every row's keys are exactly the header's columns |
| Py.ToFloat | Credit_Notes/CRN_FF.py:96 | `float(v)` is n for a number and 1.0 or 0.0 for a boolean; a string converts exactly when CPython's conversion accepts it and otherwise raises ValueError; None, a list or a dict raise TypeError |
| Py.TrueDiv | Credit_Notes/CRN_FF.py:122 | `v / k` succeeds exactly on numbers and booleans; it is the real quotient for a number, and 1/k or 0 for True or False |
| Rounding.Round2 | Credit_Notes/CRN_FF.py:118-122 | the result is a whole number of cents within half a cent of the value, and a tie goes to the even number of cents |
| Rounding.RoundHalfEven | Credit_Notes/CRN_FF.py:118 | the nearest integer, with a tie going to the even one |
| Rounding.Round2Negate | Credit_Notes/CRN_FF.py:141 | rounding commutes with negation |
| Rounding.Round2Idempotent | Credit_Notes/CRN_FF.py:118-122 | rounding an already rounded amount changes nothing |
| Decimal.ValuePadded | Credit_Notes/CRN_FF.py:143 | a zero-padded field reads back as its number when the number fits the width |
| Decimal.ValueShow | Credit_Notes/CRN_FF.py:156 | `str(n)` reads back as n |
| PurchaseOrders.StartDayIsNewYear2024 | Purchases/Brand_All_PO.py:74 | the fixed start is day 19723, 2024-01-01, a Monday |
| PurchaseOrders.SinceSunday | Purchases/Brand_All_PO.py:75 | `(weekday - 6) % 7` lies in 0..6, steps back to a Sunday, and is 0 exactly on a Sunday |
| PurchaseOrders.LastSundayIsLatest | Purchases/Brand_All_PO.py:75-76 | the end day is a Sunday at most six days back, and no later day up to today is a Sunday |
| PurchaseOrders.PurchaseOrderWindow | Purchases/Brand_All_PO.py:72-78 | start is 2024-01-01 00:00 whatever now is; the end falls on that Sunday at its last microsecond, 23:59:59.999999 |
| PurchaseOrders.WindowEndNearNow | Purchases/Brand_All_PO.py:75-77 | the end day is within the past week; run on a Sunday, the window ends after now |
| PurchaseOrders.DateVerdict | Purchases/Brand_All_PO.py:93 | None or a boolean, truthy exactly when a date parsed and lies in the window, both ends included |
| PurchaseOrders.ValidPurchaseOrder | Purchases/Brand_All_PO.py:81-93 | False exactly for a truthy isVoid; every other order raises NameError |
| PurchaseOrders.BrandOf | Purchases/Brand_All_PO.py:37-40 | `Brand[company]` is the table's brand exactly for a company string in the table; a list or dict key raises TypeError; any other key raises KeyError |
| PurchaseOrders.FixedAcceptsIff | Purchases/Brand_All_PO.py:37-40 | the corrected filter accepts exactly the non-void orders of a company in the brand table whose received date parses into the window |
| PurchaseOrders.FixedErrorCases | Purchases/Brand_All_PO.py:89-93 | in the corrected filter, an unknown company raises KeyError and an unparseable date gives the falsy None |

## Findings

| source | as written | input that shows it | evidently intended | confidence | as-written member | corrected member |
|---|---|---|---|---|---|---|
| Purchases/Brand_All_PO.py:89 | reads the undefined name `brand`, so every order that is not void raises NameError and no order is ever accepted | `{"fullyReceivedDate": "2024-06-01"}`, inside the window and not void | look up the company in `Brand`, the table defined at line 37, then return the date check of line 93 | high (not executed) | PurchaseOrders.InWindowOrderRaises | PurchaseOrders.FixedAcceptsIff |

## Left out

- HTTP transport (`requests`, `call_api`) and JSON decoding: the service is a parameter returning either an error text or a decoded body. The spaces in the field list are not percent-encoded in the model's URL.
- `time.sleep(0.5)`: rate limiting is timing only.
- `ThreadPoolExecutor`: the accounts are processed one after another, in order. `executor.map` also yields its results in that order. Concurrency itself is not modelled.
- CSV writing, `os.makedirs`, the `GITHUB_ENV` export, reading the keys from the environment, and logging: these are I/O. The rows handed to the writer are modelled.
- dateutil's parser internals: the parser is a parameter, and only `parse_date`'s handling around it is modelled.
- DateParse.ParseDate: the parser is a pure function of the text. Real dateutil fills fields the text leaves out from the current clock, so `completedDate` parsed at Credit_Notes/CRN_FF.py:86 and again at :97 can differ across a midnight. UserHarvestHarvested and MergeHarvested rely on the two parses agreeing.
- CPython's `float(str)` grammar: it is a parameter.
- Py.ToFloat: infinities and NaN are not modelled. `float('inf')`, `float('nan')` and JSON `Infinity`/`NaN` succeed in Python, but a real cannot hold them.
- Binary floating point: prices are reals. `round(x, 2)` is round-half-even on the exact value of x*100. Binary representation and double rounding are not modelled.
- CreditNotes.CreditNoteWindow: requires now to be at least seven days after 0001-01-01. Before that, Python raises OverflowError.
- PurchaseOrders.PurchaseOrderWindow: likewise requires that the latest Sunday falls on or after 0001-01-01.
- Calendar.FormatYearMonthDay: writes `%Y` as four digits. Platform `strftime` may leave years before 1000 unpadded.
- Calendar.FormatDayMonthYear: writes the `%Y` of `%d/%m/%Y` as four digits, with the same caveat for years before 1000.
- CreditNotes.ProcessUser: requires that some page ends the loop; the source loops forever otherwise.
- ProcessUser's `requested` output records the URLs it fetches, in place of the log lines.
- The purchase-order `main`, which is `pass`, and its field list, which nothing reads.
- The credit-note `FIELDS` constant: kept as a string, but its contents are not parsed.
- Utf8.Encode: credentials that are not valid Unicode scalar values are not modelled. `os.environ` turns undecodable bytes into lone surrogates, which a Dafny string cannot hold. `.encode('utf-8')` at Credit_Notes/CRN_FF.py:38 then raises UnicodeEncodeError, which no `try` around Credit_Notes/CRN_FF.py:150 catches.
- UTF-8 decoding of the Base64 token (`.decode('utf-8')`): the token is ASCII, so it is kept as characters.
