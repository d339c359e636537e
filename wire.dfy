/** Shared value types: optional values, error results, the errors the
    collaborators report, timestamps, and JSON documents.

    JSON is modelled at the level of documents, not bytes: a payload is
    either the bytes of a well-formed document (represented by the document
    itself) or bytes that do not parse. */
module Wire {

  datatype Option<+T> = None | Some(value: T)

  datatype Result<+T> = Success(value: T) | Failure(error: Error)

  /** The errors the core can see, by kind. */
  datatype Error =
    | ErrNoRows          // no database handle (database/sql's sql.ErrNoRows)
    | UniqueViolation    // INSERT of an id that is already present (id is the PRIMARY KEY)
    | StoreFailure       // any other error the database reports
    | Canceled           // context.Canceled
    | DeadlineExceeded   // context.DeadlineExceeded
    | SyntaxError        // bytes that are not a JSON document
    | TypeMismatch       // a JSON value of the wrong kind for the Go field
    | UnsupportedTime    // time.Time outside years 0..9999 cannot be marshalled
    | BrokerFailure      // the Kafka writer refused the message
    | InvalidBody        // request body failed binding or validation

  /** Timestamps are Unix seconds. */
  type Time = int

  /** Go's zero time.Time, 0001-01-01T00:00:00Z. */
  const ZeroTime: Time := -62135596800

  /** time.Time.MarshalJSON fails outside [0000-01-01T00:00:00Z, 9999-12-31T23:59:59Z]. */
  const MinJsonTime: Time := -62167219200
  const MaxJsonTime: Time := 253402300799

  predicate Marshallable(t: Time) {
    MinJsonTime <= t <= MaxJsonTime
  }

  /** The last decimal digit of n. */
  function DigitOf(n: int): char {
    "0123456789"[n % 10]
  }

  /** The proleptic Gregorian (year, month, day) of a day count from
      1970-01-01, by the era-of-400-years method. */
  function CivilFromDays(days: int): (int, int, int) {
    var z := days + 719468;
    var era := z / 146097;
    var doe := z % 146097;
    var yoe := (doe - doe / 1460 + doe / 36524 - doe / 146096) / 365;
    var doy := doe - (365 * yoe + yoe / 4 - yoe / 100);
    var mp := (5 * doy + 2) / 153;
    var d := doy - (153 * mp + 2) / 5 + 1;
    var m := if mp < 10 then mp + 3 else mp - 9;
    (yoe + era * 400 + (if m <= 2 then 1 else 0), m, d)
  }

  /** The text time.Time.MarshalJSON writes for a UTC instant in whole
      seconds, RFC 3339: YYYY-MM-DDThh:mm:ssZ. */
  function TimeText(t: Time): (r: string)
    ensures |r| == 20 && r[4] == '-' && r[7] == '-' && r[10] == 'T' && r[13] == ':' && r[16] == ':' && r[19] == 'Z'
  {
    TimeStamp(CivilFromDays(t / 86400), t % 86400)
  }

  /** YYYY-MM-DDThh:mm:ssZ from a date and the seconds into that day. */
  function TimeStamp(date: (int, int, int), secs: int): (r: string)
    ensures |r| == 20 && r[4] == '-' && r[7] == '-' && r[10] == 'T' && r[13] == ':' && r[16] == ':' && r[19] == 'Z'
  {
    var (y, mo, d) := date;
    var (h, mi, sec) := (secs / 3600, secs / 60 % 60, secs % 60);
    [DigitOf(y / 1000), DigitOf(y / 100), DigitOf(y / 10), DigitOf(y), '-',
     DigitOf(mo / 10), DigitOf(mo), '-', DigitOf(d / 10), DigitOf(d), 'T',
     DigitOf(h / 10), DigitOf(h), ':', DigitOf(mi / 10), DigitOf(mi), ':',
     DigitOf(sec / 10), DigitOf(sec), 'Z']
  }

  /** The civil date of a day count, checked step by step. */
  lemma CivilDate(days: int, doe: int, yoe: int, doy: int, date: (int, int, int))
    requires (days + 719468) % 146097 == doe
    requires (doe - doe / 1460 + doe / 36524 - doe / 146096) / 365 == yoe
    requires doe - (365 * yoe + yoe / 4 - yoe / 100) == doy
    requires var mp := (5 * doy + 2) / 153; var m := if mp < 10 then mp + 3 else mp - 9;
             date == (yoe + (days + 719468) / 146097 * 400 + (if m <= 2 then 1 else 0), m, doy - (153 * mp + 2) / 5 + 1)
    ensures CivilFromDays(days) == date
  {
  }

  /** The Unix epoch. */
  lemma EpochText()
    ensures TimeText(0) == "1970-01-01T00:00:00Z"
  {
    CivilDate(0, 135080, 369, 306, (1970, 1, 1));
    assert TimeStamp((1970, 1, 1), 0) == "1970-01-01T00:00:00Z";
  }

  /** Go's zero time. */
  lemma ZeroTimeText()
    ensures TimeText(ZeroTime) == "0001-01-01T00:00:00Z"
  {
    assert ZeroTime / 86400 == -719162 && ZeroTime % 86400 == 0;
    CivilDate(-719162, 306, 0, 306, (1, 1, 1));
    assert TimeStamp((1, 1, 1), 0) == "0001-01-01T00:00:00Z";
  }

  /** The first instant time.Time.MarshalJSON accepts. */
  lemma MinJsonTimeText()
    ensures TimeText(MinJsonTime) == "0000-01-01T00:00:00Z"
  {
    assert MinJsonTime / 86400 == -719528 && MinJsonTime % 86400 == 0;
    CivilDate(-719528, 146037, 399, 306, (0, 1, 1));
    assert TimeStamp((0, 1, 1), 0) == "0000-01-01T00:00:00Z";
  }

  /** The last instant time.Time.MarshalJSON accepts. */
  lemma MaxJsonTimeText()
    ensures TimeText(MaxJsonTime) == "9999-12-31T23:59:59Z"
  {
    assert MaxJsonTime / 86400 == 2932896 && MaxJsonTime % 86400 == 86399;
    CivilDate(2932896, 146036, 399, 305, (9999, 12, 31));
    LastSecondStamp();
  }

  lemma LastSecondStamp()
    ensures TimeStamp((9999, 12, 31), 86399) == "9999-12-31T23:59:59Z"
  {
    assert 86399 / 3600 == 23 && 86399 / 60 % 60 == 59 && 86399 % 60 == 59;
  }

  /** A JSON document. Objects keep their members in order, as Go writes struct
      fields in declaration order. JTime(t) is the string literal TimeText(t)
      as a time.Time field reads it; a string field reads the same literal as
      its text. Every other string literal is a JString. */
  datatype Json =
    | JNull
    | JBool(b: bool)
    | JString(s: string)
    | JTime(t: Time)
    | JArray(items: seq<Json>)
    | JObject(members: seq<(string, Json)>)

  /** A byte payload: the bytes of a document, or bytes that are not one. */
  datatype Bytes = Doc(doc: Json) | Unparsable(raw: seq<bv8>)

  /** len(b) == 0: only unparsable bytes can be empty, a document has at least one byte. */
  predicate IsEmpty(b: Bytes) {
    b.Unparsable? && |b.raw| == 0
  }

  /** json.Unmarshal's first step: the document, or a syntax error. */
  function Parse(b: Bytes): (r: Result<Json>)
    ensures r.Success? <==> b.Doc?
    ensures b.Doc? ==> r.value == b.doc
  {
    match b
    case Doc(j) => Success(j)
    case Unparsable(_) => Failure(SyntaxError)
  }

  /** The keys present in an object's member list. */
  function Keys(members: seq<(string, Json)>): set<string> {
    if members == [] then {} else {members[0].0} + Keys(members[1..])
  }

  lemma {:induction false} KeysAppend(a: seq<(string, Json)>, b: seq<(string, Json)>)
    ensures Keys(a + b) == Keys(a) + Keys(b)
    decreases |a|
  {
    if a == [] {
      assert a + b == b;
    } else {
      assert (a + b)[0] == a[0];
      assert (a + b)[1..] == a[1..] + b;
      KeysAppend(a[1..], b);
    }
  }

  lemma KeysSingle(m: (string, Json))
    ensures Keys([m]) == {m.0}
  {
    assert [m][1..] == [];
  }
}
