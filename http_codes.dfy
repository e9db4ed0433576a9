/** Classification of an HTTP client result: a negative transport-error
    code or a response status code. The up/down verdict is the monitor's own
    policy; the labels follow the status-code classes of section 15 of
    RFC 9110 (1xx to 5xx). */
module HttpCodes {

  /** The site is up when the server answered with anything below 500;
      transport errors (negative codes) and server errors are down. */
  function IsSiteUp(httpCode: int): (up: bool)
    ensures httpCode < 0 ==> !up
    ensures 0 <= httpCode < 500 ==> up
    ensures httpCode >= 500 ==> !up
  {
    if httpCode < 0 then false
    else httpCode < 500
  }

  /** The label for a code, by the first of the ranges <0, <200, <300,
      <400, <500 that holds, and "Server Error" otherwise. */
  function GetStatusDescription(httpCode: int): (desc: string)
    ensures desc == "Connection Error" <==> httpCode < 0
    ensures desc == "Informational" <==> 0 <= httpCode < 200
    ensures desc == "Success" <==> 200 <= httpCode < 300
    ensures desc == "Redirect" <==> 300 <= httpCode < 400
    ensures desc == "Client Error" <==> 400 <= httpCode < 500
    ensures desc == "Server Error" <==> httpCode >= 500
  {
    if httpCode < 0 then "Connection Error"
    else if httpCode < 200 then "Informational"
    else if httpCode < 300 then "Success"
    else if httpCode < 400 then "Redirect"
    else if httpCode < 500 then "Client Error"
    else "Server Error"
  }

  /** The label of status class `k` (the code's hundreds digit) in section 15
      of RFC 9110. */
  function ClassLabel(k: int): string
    requires 1 <= k <= 5
  {
    match k
    case 1 => "Informational"
    case 2 => "Success"
    case 3 => "Redirect"
    case 4 => "Client Error"
    case 5 => "Server Error"
  }

  /** For the codes RFC 9110 defines (100 to 599) the label is the label of
      the code's class, its hundreds digit. */
  lemma LabelFollowsStatusClass(httpCode: int)
    requires 100 <= httpCode < 600
    ensures GetStatusDescription(httpCode) == ClassLabel(httpCode / 100)
  {
    var k := httpCode / 100;
    assert k * 100 <= httpCode < k * 100 + 100;
  }

  /** The verdict and the label agree: the site is up exactly when the label
      is neither "Connection Error" nor "Server Error". */
  lemma SiteUpIffNotErrorLabel(httpCode: int)
    ensures IsSiteUp(httpCode) <==>
              GetStatusDescription(httpCode) != "Connection Error" &&
              GetStatusDescription(httpCode) != "Server Error"
  {
  }

  /** The boundary cases and labels the classification tests pin down. */
  lemma HttpCodeExamples()
    ensures !IsSiteUp(-1) && !IsSiteUp(-100) && IsSiteUp(0) && IsSiteUp(100)
    ensures IsSiteUp(299) && IsSiteUp(499) && !IsSiteUp(500) && !IsSiteUp(599)
    ensures GetStatusDescription(-1) == "Connection Error"
    ensures GetStatusDescription(200) == "Success"
    ensures GetStatusDescription(301) == "Redirect"
    ensures GetStatusDescription(404) == "Client Error"
    ensures GetStatusDescription(500) == "Server Error"
  {
  }
}
