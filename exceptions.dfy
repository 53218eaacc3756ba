/** The analyzer's error hierarchy: the error classes with their default
    messages, the numeric error-code table and the factory that turns a code
    into an error of the matching class. */
module Exceptions {
  import opened Common

  /** The base class and its nine subclasses. */
  datatype ErrorClass =
    | AtpAnalyzerError
    | DataValidationError
    | ProcessingError
    | AnalysisError
    | ConfigError
    | FileError
    | ExportError
    | TimeoutError
    | MemoryError
    | ParallelProcessError

  /** One entry of an error's details dictionary: the key and the text
      `repr` gives for its value. */
  datatype Detail = Detail(key: string, valueRepr: string)

  /** A raised error: its class, its message and its details, in insertion
      order. */
  datatype AnalyzerError = AnalyzerError(cls: ErrorClass, message: string, details: seq<Detail>)

  /** The text each class uses when it is given no message (or an empty one). */
  function DefaultMessage(c: ErrorClass): (m: string)
    ensures m != []
  {
    match c
    case AtpAnalyzerError => "ATP分析器錯誤"
    case DataValidationError => "資料驗證失敗"
    case ProcessingError => "資料處理失敗"
    case AnalysisError => "分析過程失敗"
    case ConfigError => "配置錯誤"
    case FileError => "檔案操作失敗"
    case ExportError => "匯出失敗"
    case TimeoutError => "操作超時"
    case MemoryError => "記憶體不足"
    case ParallelProcessError => "平行處理失敗"
  }

  /** Python's `message or default`: None and the empty string are falsy. */
  function OrElse(message: Option<string>, default: string): string
  {
    if message.Some? && message.value != "" then message.value else default
  }

  /** The base constructor: a missing or empty message becomes the base
      default, missing or empty details become the empty dictionary. */
  function BaseError(cls: ErrorClass, message: Option<string>, details: Option<seq<Detail>>): (e: AnalyzerError)
    ensures e.cls == cls && e.message != []
    ensures message.Some? && message.value != [] ==> e.message == message.value
    ensures message.None? || message.value == [] ==> e.message == DefaultMessage(AtpAnalyzerError)
    ensures details.Some? ==> e.details == details.value
    ensures details.None? ==> e.details == []
  {
    AnalyzerError(cls, OrElse(message, DefaultMessage(AtpAnalyzerError)),
                  if details.Some? then details.value else [])
  }

  /** Constructing an error of class `cls`: a subclass first replaces a
      missing or empty message by its own default, then calls the base
      constructor. */
  function NewError(cls: ErrorClass, message: Option<string>, details: Option<seq<Detail>>): (e: AnalyzerError)
    ensures e.cls == cls
    ensures message.Some? && message.value != [] ==> e.message == message.value
    ensures message.None? || message.value == [] ==> e.message == DefaultMessage(cls)
    ensures e.details == if details.Some? then details.value else []
  {
    if cls == AtpAnalyzerError then BaseError(cls, message, details)
    else BaseError(cls, Some(OrElse(message, DefaultMessage(cls))), details)
  }

  /** The table of numeric error codes. */
  const ErrorCodes: map<int, string> := map[
    1001 := "記錄數量不足",
    1002 := "缺少必要欄位",
    1003 := "時間序列錯誤",
    1004 := "速度資料異常",
    1005 := "位置資料異常",
    1006 := "事件資料異常",
    1007 := "配置驗證失敗",
    2001 := "資料轉換失敗",
    2002 := "資料計算錯誤",
    2003 := "事件解析失敗",
    2004 := "資料合併錯誤",
    2005 := "資料過濾錯誤",
    3001 := "速度分析失敗",
    3002 := "事件分析失敗",
    3003 := "位置分析失敗",
    3004 := "統計分析失敗",
    3005 := "報告產生失敗",
    4001 := "檔案不存在",
    4002 := "檔案讀取失敗",
    4003 := "檔案寫入失敗",
    4004 := "檔案格式錯誤",
    4005 := "檔案權限不足",
    5001 := "記憶體不足",
    5002 := "處理超時",
    5003 := "平行處理失敗",
    5004 := "系統資源不足",
    5005 := "執行環境錯誤"
  ]

  const UnknownErrorMessage := "未知錯誤"

  /** The message for a code: the table text, or the unknown-error text. */
  function GetErrorMessage(code: int): (m: string)
    ensures code in ErrorCodes ==> m == ErrorCodes[code]
    ensures code !in ErrorCodes ==> m == UnknownErrorMessage
    ensures m != []
  {
    if code in ErrorCodes then ErrorCodes[code] else UnknownErrorMessage
  }

  /** The class `create_error` picks for a code. */
  function ClassOfCode(code: int): ErrorClass
  {
    if 1000 <= code < 2000 then DataValidationError
    else if 2000 <= code < 3000 then ProcessingError
    else if 3000 <= code < 4000 then AnalysisError
    else if 4000 <= code < 5000 then FileError
    else if code == 5001 then MemoryError
    else if code == 5002 then TimeoutError
    else if code == 5003 then ParallelProcessError
    else AtpAnalyzerError
  }

  /** `create_error(code, **kwargs)`: an error of the code's class whose
      message is the code's table text and whose details are the keyword
      arguments. */
  function CreateError(code: int, kwargs: seq<Detail>): (e: AnalyzerError)
    ensures e.message == GetErrorMessage(code)
    ensures e.details == kwargs
    ensures 1000 <= code < 2000 <==> e.cls == DataValidationError
    ensures 2000 <= code < 3000 <==> e.cls == ProcessingError
    ensures 3000 <= code < 4000 <==> e.cls == AnalysisError
    ensures 4000 <= code < 5000 <==> e.cls == FileError
    ensures code == 5001 <==> e.cls == MemoryError
    ensures code == 5002 <==> e.cls == TimeoutError
    ensures code == 5003 <==> e.cls == ParallelProcessError
    ensures e.cls != ConfigError && e.cls != ExportError
  {
    NewError(ClassOfCode(code), Some(GetErrorMessage(code)), Some(kwargs))
  }

  /** Every code of the table is a four-digit code of one of the five
      groups 1xxx to 5xxx, and its error is of the group's class except for
      5004 and 5005, which fall back to the base class. */
  lemma TableCodesClassified(code: int)
    requires code in ErrorCodes
    ensures 1001 <= code <= 5005
    ensures CreateError(code, []).message == ErrorCodes[code]
    ensures code / 1000 == 5 && code >= 5004 <==> CreateError(code, []).cls == AtpAnalyzerError
  {
  }

  /** The text of `str(e)`. */
  function ErrorText(e: AnalyzerError): (s: string)
    ensures e.details == [] ==> s == e.message
    ensures e.details != [] ==> |s| > |e.message| && s[..|e.message|] == e.message
  {
    if e.details == [] then e.message
    else e.message + " - 詳細資訊: " + DictRepr(e.details)
  }

  /** Python's `repr` of a dictionary with string keys. */
  function DictRepr(d: seq<Detail>): (s: string)
    ensures |s| >= 2 && s[0] == '{' && s[|s| - 1] == '}'
  {
    "{" + Entries(d) + "}"
  }

  function Entries(d: seq<Detail>): string
  {
    if d == [] then ""
    else if |d| == 1 then EntryRepr(d[0])
    else Entries(d[..|d| - 1]) + ", " + EntryRepr(d[|d| - 1])
  }

  function EntryRepr(x: Detail): string
  {
    "'" + x.key + "': " + x.valueRepr
  }
}
