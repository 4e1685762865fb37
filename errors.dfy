/**
 * The exception raised when the API answers with an error object: its fields
 * are filled from the decoded JSON object with defaults, and its message is
 * the title, followed by the detail when there is a real one.
 *
 * Python's `None` is the JSON `null`: `data.get(key)` gives `Null` both for a
 * missing key and for a key whose value is `null`.
 */
module Errors {
  import opened Wrappers

  /** The detail an error gets when the object has none. */
  const NO_DETAIL: string := "No detailed description available"

  /** A decoded JSON value. Numbers are integers here. */
  datatype Json =
    | Null
    | Bool(b: bool)
    | Number(n: int)
    | Str(s: string)
    | Array(items: seq<Json>)
    | Object(fields: map<string, Json>)

  /** Where in the request the error lies; both fields default to the empty string. */
  datatype ErrorSource = ErrorSource(parameter: string, pointer: string)

  const NO_SOURCE: ErrorSource := ErrorSource("", "")

  /**
   * Why building the source fails: `ErrorSource(**value)` needs a mapping
   * (`TypeError`), and the model validates both fields as strings.
   */
  datatype SourceError = SourceNotMapping | FieldNotString(field: string)

  /** The exception's fields. */
  datatype ApiException = ApiException(code: Json, detail: Json, id: Json, source: ErrorSource, status: Json, title: Json)

  /** `data.get(key)`. */
  function Get(data: map<string, Json>, key: string): Json
  {
    if key in data then data[key] else Null
  }

  /** One string field of `ErrorSource`, with its default; other keys of the mapping are ignored. */
  function SourceField(fields: map<string, Json>, name: string): Result<string, SourceError>
  {
    if name !in fields then Success("")
    else if fields[name].Str? then Success(fields[name].s)
    else Failure(FieldNotString(name))
  }

  /**
   * `ErrorSource(**value)`: it succeeds exactly on a mapping whose `parameter`
   * and `pointer`, where present, are strings, and takes those strings, the
   * empty string for a missing one.
   */
  function SourceFrom(value: Json): (r: Result<ErrorSource, SourceError>)
    ensures r.Success? <==>
              value.Object?
              && ("parameter" in value.fields ==> value.fields["parameter"].Str?)
              && ("pointer" in value.fields ==> value.fields["pointer"].Str?)
    ensures r.Success? ==>
              r.value.parameter == (if "parameter" in value.fields then value.fields["parameter"].s else "")
              && r.value.pointer == (if "pointer" in value.fields then value.fields["pointer"].s else "")
  {
    match value
    case Object(fields) =>
      (match SourceField(fields, "parameter")
       case Failure(e) => Failure(e)
       case Success(parameter) =>
         match SourceField(fields, "pointer")
         case Failure(e) => Failure(e)
         case Success(pointer) => Success(ErrorSource(parameter, pointer)))
    case _ => Failure(SourceNotMapping)
  }

  /**
   * `AppleMusicAPIException(data)`. No `detail` gives the default detail and no
   * `source` an empty source, which cannot fail; `code`, `id`, `status` and
   * `title` are copied, `Null` when missing; a `detail` that is there is copied
   * too, whatever it is.
   */
  function FromData(data: map<string, Json>): (r: Result<ApiException, SourceError>)
    ensures "source" !in data ==> r.Success? && r.value.source == NO_SOURCE
    ensures r.Success? ==>
              && ("detail" !in data ==> r.value.detail == Str(NO_DETAIL))
              && ("detail" in data ==> r.value.detail == data["detail"])
              && ("code" !in data ==> r.value.code == Null) && ("id" !in data ==> r.value.id == Null)
              && ("status" !in data ==> r.value.status == Null) && ("title" !in data ==> r.value.title == Null)
              && ("code" in data ==> r.value.code == data["code"]) && ("id" in data ==> r.value.id == data["id"])
              && ("status" in data ==> r.value.status == data["status"]) && ("title" in data ==> r.value.title == data["title"])
  {
    var detail := if "detail" in data then data["detail"] else Str(NO_DETAIL);
    var source := if "source" in data then data["source"] else Object(map[]);
    match SourceFrom(source)
    case Failure(e) => Failure(e)
    case Success(src) =>
      Success(ApiException(Get(data, "code"), detail, Get(data, "id"), src, Get(data, "status"), Get(data, "title")))
  }

  // ---------------------------------------------------------------------------
  // The message
  // ---------------------------------------------------------------------------

  function DigitChar(d: nat): char
    requires d < 10
  {
    "0123456789"[d]
  }

  /** The decimal digits of `n`, most significant first. */
  function Digits(n: nat): (s: string)
    ensures |s| >= 1
  {
    if n < 10 then [DigitChar(n)] else Digits(n / 10) + [DigitChar(n % 10)]
  }

  /** The number a string of decimal digits stands for. */
  function DigitsValue(s: string): int
  {
    if |s| == 0 then 0 else 10 * DigitsValue(s[..|s| - 1]) + (s[|s| - 1] as int - '0' as int)
  }

  /** Reading the digits back gives the number: `Digits` is a faithful rendering. */
  lemma {:induction false} DigitsValueOfDigits(n: nat)
    ensures DigitsValue(Digits(n)) == n
  {
    if n >= 10 {
      var s := Digits(n);
      assert s[..|s| - 1] == Digits(n / 10);
      DigitsValueOfDigits(n / 10);
    }
  }

  /** `str(value)` for the values whose rendering the model covers; lists and dicts are not covered. */
  function Display(value: Json): Option<string>
  {
    match value
    case Null => Some("None")
    case Bool(b) => Some(if b then "True" else "False")
    case Number(n) => Some(if n < 0 then "-" + Digits(-n) else Digits(n))
    case Str(s) => Some(s)
    case _ => None
  }

  /** An integer is rendered as its decimal digits, after a `-` when it is negative: reading them back gives the integer. */
  lemma DisplayNumber(n: int)
    ensures Display(Number(n)).Some?
    ensures n >= 0 ==> DigitsValue(Display(Number(n)).value) == n
    ensures n < 0 ==> Display(Number(n)).value[0] == '-' && DigitsValue(Display(Number(n)).value[1..]) == -n
  {
    if n < 0 {
      var digits := Digits(-n);
      assert Display(Number(n)).value == "-" + digits;
      assert ("-" + digits)[1..] == digits;
      DigitsValueOfDigits(-n);
    } else {
      DigitsValueOfDigits(n);
    }
  }

  /**
   * Why `str(error)` gives no string: `+=` of a string onto a title that is
   * neither a string nor a list raises `TypeError`; and the model does not
   * render lists or dicts.
   */
  datatype MessageError = TitleNotString | NotRendered

  /**
   * `str(error)`: the title, and `": "` and the detail unless the detail is the
   * default one. With the default detail a string title is the whole message;
   * with any other detail a message starts with the title and `": "`.
   */
  function Message(e: ApiException): (r: Result<string, MessageError>)
    ensures e.detail == Str(NO_DETAIL) && e.title.Str? ==> r == Success(e.title.s)
    ensures e.detail != Str(NO_DETAIL) && r.Success? ==>
              e.title.Str? && |r.value| >= |e.title.s| + 2 && r.value[..|e.title.s| + 2] == e.title.s + ": "
  {
    if e.detail == Str(NO_DETAIL) then
      match Display(e.title)
      case None => Failure(NotRendered)
      case Some(text) => Success(text)
    else if e.title.Array? then Failure(NotRendered)
    else if !e.title.Str? then Failure(TitleNotString)
    else
      match Display(e.detail)
      case None => Failure(NotRendered)
      case Some(detail) => Success(e.title.s + ": " + detail)
  }

  // ---------------------------------------------------------------------------
  // Properties
  // ---------------------------------------------------------------------------

  /**
   * Building the exception fails only on a `source` that is there but is not
   * a mapping, or whose `parameter` or `pointer` is there but is not a string.
   */
  lemma FromDataFails(data: map<string, Json>)
    ensures FromData(data).Failure? <==>
              "source" in data &&
              (!data["source"].Object?
               || ("parameter" in data["source"].fields && !data["source"].fields["parameter"].Str?)
               || ("pointer" in data["source"].fields && !data["source"].fields["pointer"].Str?))
  {
  }

  /** A source mapping gives back its string fields, and the defaults for those missing. */
  lemma SourceFromFields(parameter: Option<string>, pointer: Option<string>, extra: map<string, Json>)
    requires "parameter" !in extra && "pointer" !in extra
    ensures var fields := extra
              + (if parameter.Some? then map["parameter" := Str(parameter.value)] else map[])
              + (if pointer.Some? then map["pointer" := Str(pointer.value)] else map[]);
            SourceFrom(Object(fields))
            == Success(ErrorSource(if parameter.Some? then parameter.value else "",
                                   if pointer.Some? then pointer.value else ""))
  {
  }

  /**
   * For a string title, the message is the title alone exactly when the
   * detail is the default one; otherwise it is the title, `": "` and the detail.
   */
  lemma MessageOfStringTitle(e: ApiException, title: string)
    requires e.title == Str(title) && Display(e.detail).Some?
    ensures Message(e).Success?
    ensures Message(e).value == title <==> e.detail == Str(NO_DETAIL)
    ensures e.detail != Str(NO_DETAIL) ==> Message(e).value == title + ": " + Display(e.detail).value
  {
    if e.detail != Str(NO_DETAIL) {
      assert |Message(e).value| > |title|;
    }
  }

  /**
   * From the error object to the message: a string title and no detail give
   * the title; a string detail other than the default gives title and detail;
   * a detail equal to the default text is indistinguishable from none.
   */
  lemma MessageOfData(data: map<string, Json>, title: string)
    requires "source" !in data && Get(data, "title") == Str(title)
    ensures "detail" !in data ==> Message(FromData(data).value) == Success(title)
    ensures "detail" in data && data["detail"] == Str(NO_DETAIL) ==> Message(FromData(data).value) == Success(title)
    ensures "detail" in data && data["detail"].Str? && data["detail"] != Str(NO_DETAIL) ==>
              Message(FromData(data).value) == Success(title + ": " + data["detail"].s)
  {
  }

  /** Without a title, the message is `"None"` when there is no detail, and `+=` fails when there is one. */
  lemma MessageWithoutTitle(data: map<string, Json>)
    requires "source" !in data && "title" !in data
    ensures "detail" !in data ==> Message(FromData(data).value) == Success("None")
    ensures "detail" in data && data["detail"] != Str(NO_DETAIL) ==> Message(FromData(data).value) == Failure(TitleNotString)
  {
  }
}
