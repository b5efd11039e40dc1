/**
 * The error value every handler raises (utils/AppError.ts): a message, an HTTP
 * status code, and fields derived from the code when the error is made.
 */
module AppErrors {
  import opened Text

  /**
   * An `AppError`. As a subclass of `Error` it also carries the inherited name
   * "Error", which is what the error middleware sees after a translation.
   */
  datatype AppError = AppError(
    message: string,
    statusCode: int,
    status: string,
    isOperational: bool,
    isJoi: bool)

  /** `${statusCode}`.startsWith("4") ? "fail" : "error" */
  function StatusOf(statusCode: int): (s: string)
    ensures s == "fail" || s == "error"
    ensures statusCode <= 0 ==> s == "error"
  {
    if IntText(statusCode)[0] == '4' then "fail" else "error"
  }

  /** `new AppError(message, statusCode)`. */
  function New(message: string, statusCode: int): (e: AppError)
    ensures e.message == message && e.statusCode == statusCode
    ensures e.isOperational && !e.isJoi
    ensures e.status == "fail" || e.status == "error"
  {
    AppError(message, statusCode, StatusOf(statusCode), true, false)
  }

  function Pow10(k: nat): (p: nat)
    ensures p >= 1
  {
    if k == 0 then 1 else 10 * Pow10(k - 1)
  }

  /**
   * The status is a test on the first digit, not a range: among the codes with
   * k + 1 digits, exactly those from 4 * 10^k up to (but not including) 5 * 10^k
   * give "fail".
   */
  lemma {:induction false} StatusByFirstDigit(message: string, code: int, k: nat)
    requires Pow10(k) <= code < 10 * Pow10(k)
    ensures (New(message, code).status == "fail") == (4 * Pow10(k) <= code < 5 * Pow10(k))
  {
    if k > 0 {
      var p := Pow10(k - 1);
      assert Pow10(k) == 10 * p;
      StatusByFirstDigit(message, code / 10, k - 1);
      assert NatText(code)[0] == NatText(code / 10)[0];
    }
  }

  /** Zero and negative codes (whose text starts with '0' or '-') give "error". */
  lemma NonPositiveStatus(message: string, code: int)
    requires code <= 0
    ensures New(message, code).status == "error"
  {
  }

  /** The codes the handlers use, and the codes that show the prefix test. */
  lemma StatusExamples(message: string)
    ensures New(message, 400).status == "fail" && New(message, 404).status == "fail"
    ensures New(message, 500).status == "error"
    ensures New(message, 4).status == "fail" && New(message, 42).status == "fail"
    ensures New(message, 4000).status == "fail"
  {
    assert Pow10(2) == 100 && Pow10(3) == 1000;
    StatusByFirstDigit(message, 400, 2);
    StatusByFirstDigit(message, 404, 2);
    StatusByFirstDigit(message, 500, 2);
    StatusByFirstDigit(message, 4, 0);
    StatusByFirstDigit(message, 42, 1);
    StatusByFirstDigit(message, 4000, 3);
  }
}
