/**
  App\Controllers\ErrorPageController: the page shown for a failed request.
  The status code reported is the current response code, with a 200 taken to
  mean that no route matched (404); its message comes from a fixed table of
  four codes, and the page title and status line are the code and the
  message side by side.
 */
module ErrorPages {
  import opened PhpStrings
  import opened Php

  /** The message table of getErrorMessage. */
  const ErrorMessages: map<int, string> :=
    map[400 := "Bad Request", 401 := "Unauthorized", 403 := "Forbidden", 404 := "Not Found"]

  /** getErrorMessage: the table entry, or the empty string for a code the table lacks. */
  function ErrorMessage(code: int): (msg: string)
    ensures code in ErrorMessages ==> msg == ErrorMessages[code]
    ensures code !in ErrorMessages ==> msg == ""
  {
    if code in ErrorMessages then ErrorMessages[code] else ""
  }

  /** The code main reports. `current` is what http_response_code() answers:
      None stands for `false` (no response code is known), which `(int)`
      turns into 0. */
  function ErrorCode(current: Option<int>): (code: int)
    ensures current == Some(200) ==> code == 404
    ensures current.Some? && current.value != 200 ==> code == current.value
    ensures current.None? ==> code == 0
  {
    match current
    case None => 0
    case Some(c) => if c == 200 then 404 else c
  }

  /** The `$err` array handed to the view. */
  datatype ErrorRecord = ErrorRecord(errCode: int, errMsg: string)

  /** The record main builds: the chosen code and its message. */
  function ErrorRecordFor(current: Option<int>): (e: ErrorRecord)
    ensures e.errCode == ErrorCode(current)
    ensures e.errMsg == ErrorMessage(e.errCode)
  {
    var code := ErrorCode(current);
    ErrorRecord(code, ErrorMessage(code))
  }

  /** pageTabTitle in errorView: the code, a space, the message. */
  function TabTitle(e: ErrorRecord): string
  {
    IntToDecimal(e.errCode) + " " + e.errMsg
  }

  /** The header line main sends. */
  function StatusLine(e: ErrorRecord): string
  {
    "HTTP/1.1 " + TabTitle(e)
  }

  // ---------------------------------------------------------------- properties

  /** The message is non-empty exactly for the four codes of the table, and
      each of them has its own message. */
  lemma MessageKnownExactly(code: int)
    ensures ErrorMessage(code) != "" <==> code == 400 || code == 401 || code == 403 || code == 404
    ensures code == 400 ==> ErrorMessage(code) == "Bad Request"
    ensures code == 401 ==> ErrorMessage(code) == "Unauthorized"
    ensures code == 403 ==> ErrorMessage(code) == "Forbidden"
    ensures code == 404 ==> ErrorMessage(code) == "Not Found"
  {
    assert code in ErrorMessages <==> code == 400 || code == 401 || code == 403 || code == 404;
  }

  /** A response that still says 200 is reported as Not Found. */
  lemma OkIsReportedNotFound()
    ensures ErrorRecordFor(Some(200)) == ErrorRecord(404, "Not Found")
  {
  }

  /** Every other code is reported as it is, with its table message. */
  lemma OtherCodesKept(c: int)
    requires c != 200
    ensures ErrorRecordFor(Some(c)) == ErrorRecord(c, ErrorMessage(c))
  {
  }

  /** The reported code is never 200, whatever the response code was. */
  lemma NeverReportsOk(current: Option<int>)
    ensures ErrorRecordFor(current).errCode != 200
  {
  }

  /** The title splits back into its parts: the text before the first space
      is the decimal code, which denotes the reported code, and the rest
      after that space is the message. */
  lemma TitleParts(e: ErrorRecord)
    ensures var d := IntToDecimal(e.errCode);
      var t := TabTitle(e);
      |d| < |t| && t[..|d|] == d && t[|d|] == ' ' && t[|d| + 1..] == e.errMsg
      && ' ' !in d && IsIntegerKey(d) && IntegerKeyValue(d) == e.errCode
  {
    var d := IntToDecimal(e.errCode);
    IntegerKeyOfDecimal(e.errCode);
    NoSpaceInDecimal(e.errCode);
    var t := TabTitle(e);
    assert t == d + (" " + e.errMsg);
  }

  /** Decimal text holds digits and at most a leading minus, never a space. */
  lemma NoSpaceInDecimal(n: int)
    ensures ' ' !in IntToDecimal(n)
  {
    var m := if n < 0 then -n else n;
    var r := NatToDecimal(m);
    assert AllDigits(r);
    assert forall i :: 0 <= i < |r| ==> r[i] != ' ';
    if n < 0 {
      assert IntToDecimal(n) == "-" + r;
    }
  }

  /** The status line is the HTTP/1.1 prefix followed by the title. */
  lemma StatusLineCarriesTitle(e: ErrorRecord)
    ensures var s := StatusLine(e);
      var p := "HTTP/1.1 ";
      |p| <= |s| && s[..|p|] == p && s[|p|..] == TabTitle(e)
  {
  }

  /** The page for an unmatched request: status line and title name 404 Not Found. */
  lemma NotFoundPage()
    ensures TabTitle(ErrorRecordFor(Some(200))) == "404" + " " + "Not Found"
  {
    OkIsReportedNotFound();
    assert IntToDecimal(404) == "404" by {
      assert NatToDecimal(4) == "4";
      assert NatToDecimal(40) == "40";
    }
  }
}
