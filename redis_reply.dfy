/** The tagged reply value: hiredis's decoded reply record, the six typed
    views over it, the closed sum `any`, and the safe narrowing to a view. */
module RedisReply {
  import opened Results

  /** `long long`, the width of the record's integer field. */
  type Int64 = x: int | -0x8000_0000_0000_0000 <= x < 0x8000_0000_0000_0000

  // The tags hiredis writes into a record's `type` field.
  const ReplyString: int := 1
  const ReplyArray: int := 2
  const ReplyInteger: int := 3
  const ReplyNil: int := 4
  const ReplyStatus: int := 5
  const ReplyError: int := 6

  /** Any tag value that is none of the six above (for example the tags
      of the RESP3 reply kinds, or the 0 of a zeroed record). */
  type OtherTag = t: int | t < ReplyString || t > ReplyError

  /** A decoded hiredis reply record. A string-like record's `str` holds
      exactly its `len` bytes; an array record's `element` holds its
      `elements` sub-records. */
  datatype Raw =
    | IntegerReply(integer: Int64)
    | StringReply(str: string)
    | ArrayReply(element: seq<Raw>)
    | NilReply
    | StatusReply(str: string)
    | ErrorReply(str: string)
    | OtherReply(tag: OtherTag, integer: Int64, len: nat)

  /** The record's `type` field. */
  function Tag(r: Raw): int {
    match r
    case IntegerReply(_) => ReplyInteger
    case StringReply(_) => ReplyString
    case ArrayReply(_) => ReplyArray
    case NilReply => ReplyNil
    case StatusReply(_) => ReplyStatus
    case ErrorReply(_) => ReplyError
    case OtherReply(t, _, _) => t
  }

  /** The record's `integer` field (zero where hiredis leaves it unset). */
  function IntegerField(r: Raw): Int64 {
    match r
    case IntegerReply(i) => i
    case OtherReply(_, i, _) => i
    case _ => 0
  }

  /** The record's `len` field (zero where hiredis leaves it unset). */
  function Len(r: Raw): nat {
    match r
    case StringReply(s) => |s|
    case StatusReply(s) => |s|
    case ErrorReply(s) => |s|
    case OtherReply(_, _, n) => n
    case _ => 0
  }

  /** The record's `elements` field. */
  function Elements(r: Raw): nat {
    if r.ArrayReply? then |r.element| else 0
  }

  /** `release_reply`: whether the deleter hands the record to
      `freeReplyObject`. It skips a null pointer and a record whose type,
      integer and length are all zero, and frees everything else. */
  function ReleaseFrees(p: Option<Raw>): (frees: bool)
    ensures frees <==> p.Some? && p.value != OtherReply(0, 0, 0)
  {
    p.Some? && (Tag(p.value) != 0 || IntegerField(p.value) != 0 || Len(p.value) != 0)
  }

  /** `result_type`: the six kinds of view. */
  datatype ResultType = IntegerKind | NullKind | StringKind | ArrayKind | StatusKind | ErrorKind

  /** The tag that each view's constructor demands of its record. */
  function TagOf(k: ResultType): int {
    match k
    case IntegerKind => ReplyInteger
    case NullKind => ReplyNil
    case StringKind => ReplyString
    case ArrayKind => ReplyArray
    case StatusKind => ReplyStatus
    case ErrorKind => ReplyError
  }

  /** The kind of view a record's tag calls for, if any. */
  function KindOf(r: Raw): (k: Option<ResultType>)
    ensures k.Some? ==> TagOf(k.value) == Tag(r)
    ensures k.None? <==> forall kind :: TagOf(kind) != Tag(r)
  {
    match r
    case IntegerReply(_) => Some(IntegerKind)
    case StringReply(_) => Some(StringKind)
    case ArrayReply(_) => Some(ArrayKind)
    case NilReply => Some(NullKind)
    case StatusReply(_) => Some(StatusKind)
    case ErrorReply(_) => Some(ErrorKind)
    case OtherReply(_, _, _) => None
  }

  // The six typed views. A view holds its (shared) record, and the
  // record's tag is the view's own.
  type IntegerView = r: Raw | r.IntegerReply? witness IntegerReply(0)
  type NullView = r: Raw | r.NilReply? witness NilReply
  type StringView = r: Raw | r.StringReply? witness StringReply("")
  type ArrayView = r: Raw | r.ArrayReply? witness ArrayReply([])
  type StatusView = r: Raw | r.StatusReply? witness StatusReply("")
  type ErrorView = r: Raw | r.ErrorReply? witness ErrorReply("")

  /** The `data_type` constructor shared by the six views: it asserts
      that the record is present and carries the view's tag. */
  function MakeView(k: ResultType, p: Option<Raw>): (v: Raw)
    requires p.Some?
    requires Tag(p.value) == TagOf(k)
    ensures v == p.value
    ensures KindOf(v) == Some(k)
  {
    p.value
  }

  /** `any`: exactly one view, or the monostate `Empty`. */
  datatype Any =
    | Empty
    | Integer(integer: IntegerView)
    | Null(nil: NullView)
    | String(str: StringView)
    | Array(arr: ArrayView)
    | Status(status: StatusView)
    | Error(error: ErrorView)
  {
    /** `is_int`, `is_null`, `is_string`, `is_array`, `is_status` and
        `is_error`: which alternative the variant holds. */
    predicate Is(k: ResultType): (b: bool)
      ensures b ==> !Empty? && KindOf(Record()) == Some(k)
    {
      match k
      case IntegerKind => Integer?
      case NullKind => Null?
      case StringKind => String?
      case ArrayKind => Array?
      case StatusKind => Status?
      case ErrorKind => Error?
    }

    /** The record behind the view the variant holds. */
    function Record(): Raw
      requires !Empty?
    {
      match this
      case Integer(v) => v
      case Null(v) => v
      case String(v) => v
      case Array(v) => v
      case Status(v) => v
      case Error(v) => v
    }

    /** `as_int`, `as_null`, `as_string`, `as_error`, `as_status`,
        `as_array` (through `cast`), and so every `try_into<T>`: the held
        view when the kind matches, otherwise a failure naming the kind
        actually held. */
    function As(k: ResultType): (r: Result<Raw>)
      ensures r.Ok? <==> Is(k)
      ensures r.Ok? ==> !Empty? && r.value == Record() && KindOf(r.value) == Some(k)
      ensures r.Failed? ==> r.error == WrongTypePrefix + ToString(this)
    {
      if Is(k) then Ok(Record()) else Failed(WrongTypePrefix + ToString(this))
    }
  }

  const WrongTypePrefix: string := "using access to the wrong type from actual type "

  /** `any::from`: decode a nullable record into the variant its tag calls
      for; a null pointer and an unknown tag both give `Empty`. */
  function From(p: Option<Raw>): (a: Any)
    ensures p.None? ==> a.Empty?
    ensures p.Some? && KindOf(p.value).None? ==> a.Empty?
    ensures p.Some? && KindOf(p.value).Some? ==>
              a.Is(KindOf(p.value).value) && a.Record() == p.value
  {
    if p.None? then Empty
    else
      var t := Tag(p.value);
      if t == ReplyArray then Array(MakeView(ArrayKind, p))
      else if t == ReplyError then Error(MakeView(ErrorKind, p))
      else if t == ReplyInteger then Integer(MakeView(IntegerKind, p))
      else if t == ReplyNil then Null(MakeView(NullKind, p))
      else if t == ReplyStatus then Status(MakeView(StatusKind, p))
      else if t == ReplyString then String(MakeView(StringKind, p))
      else Empty
  }

  /** The classification text of each kind. */
  function KindText(k: ResultType): string {
    match k
    case ArrayKind => "array type"
    case ErrorKind => "error message"
    case IntegerKind => "integer type"
    case NullKind => "null type"
    case StatusKind => "status type"
    case StringKind => "string type"
  }

  /** `to_string(any)`: a cascade of kind tests in a fixed order, with
      "error" for the empty value. The first test is `is_array` here; see
      ToStringAsWritten for the test the source writes. */
  function ToString(a: Any): (s: string)
    ensures a.Empty? ==> s == "error"
    ensures forall k :: a.Is(k) ==> s == KindText(k)
  {
    if a.Is(ArrayKind) then "array type"
    else if a.Is(ErrorKind) then "error message"
    else if a.Is(IntegerKind) then "integer type"
    else if a.Is(NullKind) then "null type"
    else if a.Is(StatusKind) then "status type"
    else if a.Is(StringKind) then "string type"
    else "error"
  }

  /** `to_string(any)` as written: its first test is `as_array()`, whose
      failure branch builds its text by calling `to_string` on the same
      value before it can return. `fuel` bounds the nesting depth; `None`
      means the call has not returned within it. Whenever it does return,
      it returns the corrected text. */
  function ToStringAsWritten(a: Any, fuel: nat): (r: Option<string>)
    ensures r.Some? ==> r.value == ToString(a)
    decreases fuel, 0
  {
    if fuel == 0 then None
    else match AsAsWritten(a, ArrayKind, fuel - 1)
      case None => None
      case Some(r) =>
        if r.Ok? then Some("array type")
        else if a.Is(ErrorKind) then Some("error message")
        else if a.Is(IntegerKind) then Some("integer type")
        else if a.Is(NullKind) then Some("null type")
        else if a.Is(StatusKind) then Some("status type")
        else if a.Is(StringKind) then Some("string type")
        else Some("error")
  }

  /** `cast` (so every `as_*` and `try_into<T>`) with the written
      `to_string`: its failure text needs `to_string` of the same value.
      Whenever it returns, it agrees with `As`. */
  function AsAsWritten(a: Any, k: ResultType, fuel: nat): (r: Option<Result<Raw>>)
    ensures r.Some? ==> r.value == a.As(k)
    decreases fuel, 1
  {
    if a.Is(k) then Some(Ok(a.Record()))
    else match ToStringAsWritten(a, fuel)
      case None => None
      case Some(t) => Some(Failed(WrongTypePrefix + t))
  }

  /** Every value that is not an array sends the written `to_string` into
      unbounded recursion: no amount of fuel makes it return. */
  lemma {:induction false} ToStringAsWrittenNeverReturns(a: Any, fuel: nat)
    requires !a.Array?
    ensures ToStringAsWritten(a, fuel) == None
  {
    if fuel > 0 {
      ToStringAsWrittenNeverReturns(a, fuel - 1);
    }
  }

  /** With the written `to_string`, a failed narrowing of a value that is
      not an array never returns either: every `as_*` and `try_into<T>`
      that does not match builds its failure text with `to_string`. */
  lemma FailedNarrowingNeverReturns(a: Any, k: ResultType, fuel: nat)
    requires !a.Is(k) && !a.Array?
    ensures AsAsWritten(a, k, fuel) == None
  {
    ToStringAsWrittenNeverReturns(a, fuel);
  }

  /** A failed narrowing of an array does return: the written `to_string`'s
      `as_array()` test succeeds on it, so the failure reads "array type". */
  lemma FailedNarrowingOfArrayReturns(a: Any, k: ResultType, fuel: nat)
    requires a.Array? && fuel >= 1
    ensures AsAsWritten(a, k, fuel) == Some(a.As(k))
  {
    ToStringAsWrittenOnArray(a, fuel);
  }

  /** On an array the written `to_string` returns at once, and agrees with
      the corrected one. */
  lemma ToStringAsWrittenOnArray(a: Any, fuel: nat)
    requires a.Array? && fuel >= 1
    ensures ToStringAsWritten(a, fuel) == Some(ToString(a))
  {
  }

  /** The corrected `to_string` names every value's kind, "error" only for
      the empty value, and tells different kinds apart. */
  lemma ToStringClassifies(a: Any, b: Any)
    ensures ToString(a) == "error" <==> a.Empty?
    ensures ToString(a) == ToString(b) ==> (a.Empty? <==> b.Empty?) && forall k :: a.Is(k) <==> b.Is(k)
  {
  }

  // Accessors of the views.

  /** `array::size`: the record's element count. */
  function ArraySize(a: ArrayView): (n: nat)
    ensures n == Elements(a)
  {
    |a.element|
  }

  /** `array::empty`. */
  function ArrayEmpty(a: ArrayView): (b: bool)
    ensures b <==> ArraySize(a) == 0
  {
    ArraySize(a) == 0
  }

  /** `array::operator[]`: asserts `at < size()` and decodes sub-record
      `at` afresh. */
  function ArrayAt(a: ArrayView, at: nat): (r: Any)
    requires at < ArraySize(a)
    ensures r.Empty? <==> KindOf(a.element[at]).None?
    ensures !r.Empty? ==> r.Record() == a.element[at]
  {
    From(Some(a.element[at]))
  }

  /** `status::message`: the record's `(str, len)` bytes. */
  function StatusMessage(v: StatusView): (m: string)
    ensures m == v.str && |m| == Len(v)
  {
    v.str
  }

  /** `error::message`: the record's `(str, len)` bytes. */
  function ErrorMessage(v: ErrorView): (m: string)
    ensures m == v.str && |m| == Len(v)
  {
    v.str
  }

  /** `string::message`: the record's `(str, len)` bytes. */
  function StringMessage(v: StringView): (m: string)
    ensures m == v.str && |m| == Len(v)
  {
    v.str
  }

  /** `string::size`. */
  function StringSize(v: StringView): (n: nat)
    ensures n == Len(v)
  {
    |StringMessage(v)|
  }

  /** `string::empty`. */
  function StringEmpty(v: StringView): (b: bool)
    ensures b <==> Len(v) == 0
  {
    |StringMessage(v)| == 0
  }

  /** `integer::message`: the record's integer field, unchanged. */
  function IntegerMessage(v: IntegerView): (i: Int64)
    ensures i == IntegerField(v)
  {
    v.integer
  }

  /** `to_string(string)`: a copy of exactly the message bytes. */
  function StringText(v: StringView): (s: string)
    ensures s == StringMessage(v) && |s| == StringSize(v)
  {
    StringMessage(v)
  }

  // Properties of the variant.

  /** A default `any` holds the monostate: no `is_*` holds. */
  lemma DefaultHoldsNoKind()
    ensures forall k :: !Empty.Is(k)
    ensures ToString(Empty) == "error"
  {
  }

  /** At most one `is_*` holds, and exactly one unless the value is empty;
      the held record always carries that kind's tag. */
  lemma ExactlyOneKind(a: Any, k1: ResultType, k2: ResultType)
    ensures a.Is(k1) && a.Is(k2) ==> k1 == k2
    ensures !a.Empty? <==> exists k :: a.Is(k)
    ensures a.Is(k1) ==> KindOf(a.Record()) == Some(k1) && Tag(a.Record()) == TagOf(k1)
  {
    if !a.Empty? {
      var k := match a
        case Integer(_) => IntegerKind
        case Null(_) => NullKind
        case String(_) => StringKind
        case Array(_) => ArrayKind
        case Status(_) => StatusKind
        case Error(_) => ErrorKind;
      assert a.Is(k);
    }
  }

  /** Decoding never conflates records: two pointers that decode to the
      same non-empty value point at equal records. */
  lemma FromInjective(p: Option<Raw>, q: Option<Raw>)
    requires !From(p).Empty? && From(p) == From(q)
    ensures p == q
  {
  }

  /** Round trip: `try_into<k>(any::from(r))` succeeds exactly when r's tag
      is k's tag; the view it gives back is r itself, so its message,
      size or integer reproduces r's fields; a failure names r's kind. */
  lemma {:induction false} TryIntoDecoded(r: Raw, k: ResultType)
    ensures From(Some(r)).As(k).Ok? <==> Tag(r) == TagOf(k)
    ensures From(Some(r)).As(k).Ok? ==> From(Some(r)).As(k).value == r
    ensures From(Some(r)).As(k).Failed? ==>
              From(Some(r)).As(k).error ==
                WrongTypePrefix + (if KindOf(r).Some? then KindText(KindOf(r).value) else "error")
  {
  }

  /** Decoding an error reply: `try_into<error>` gives its message back,
      `try_into<integer>` fails naming "error message". */
  lemma ErrorReplyScenario()
    ensures From(Some(ErrorReply("ERR bad command"))).As(ErrorKind) == Ok(ErrorReply("ERR bad command"))
    ensures From(Some(ErrorReply("ERR bad command"))).As(IntegerKind)
              == Failed(WrongTypePrefix + "error message")
  {
  }

  // Ownership of the decoded record.

  /** Whether `any::from` installs `release_reply` as the record's deleter.
      Only a view's constructor builds a `lowlevel_access`, so a null
      pointer and a record with an unknown tag (the `default:` branch) get
      none. */
  function HasDeleter(p: Option<Raw>): (d: bool)
    ensures d <==> !From(p).Empty?
  {
    p.Some? && KindOf(p.value).Some?
  }

  /** Whether the record handed to `any::from` is eventually passed to
      `freeReplyObject`: it needs a deleter, and the deleter's test. */
  function Released(p: Option<Raw>): (freed: bool)
    ensures freed <==> !From(p).Empty?
  {
    HasDeleter(p) && ReleaseFrees(p)
  }

  /** The decoding that evidently was meant: every non-null record is
      handed to a deleter, whatever its tag, so `release_reply`'s own test
      alone decides; it frees all that `Released` frees, and more. */
  function ReleasedCorrected(p: Option<Raw>): (freed: bool)
    ensures freed <==> p.Some? && p.value != OtherReply(0, 0, 0)
    ensures Released(p) ==> freed
  {
    ReleaseFrees(p)
  }

  /** Every record that decodes to a view is freed by its deleter, and of
      the records the deleter's test would free, exactly those with an
      unknown tag are not: they decode to the empty value and get no
      deleter. */
  lemma DecodedRecordsAreFreed(p: Option<Raw>)
    ensures !From(p).Empty? ==> HasDeleter(p) && ReleaseFrees(p)
    ensures From(p).Empty? ==> !HasDeleter(p)
    ensures ReleaseFrees(p) && !Released(p) <==>
              p.Some? && KindOf(p.value).None? && p.value != OtherReply(0, 0, 0)
  {
  }
}
