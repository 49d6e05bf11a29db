/** The message formatting of the base error class in caniuse/exceptions.py. */
module Exceptions {
  import opened Wrappers
  import opened Strings

  /** The detail text of the base class; subclasses override it. */
  const BaseDetail: string := "An error occurred."

  const Separator: string := " :: "

  /** An error: its class's detail text and the optional extra detail it was
      raised with. */
  datatype CustomError = CustomError(detail: string, extraDetail: Option<string>)

  /** An error of the base class. */
  function BaseError(extraDetail: Option<string>): (e: CustomError)
    ensures e.detail == BaseDetail && e.extraDetail == extraDetail
  {
    CustomError(BaseDetail, extraDetail)
  }

  /** True when the extra detail is present and not empty, which is when
      Python finds it truthy. */
  predicate HasExtra(e: CustomError) {
    e.extraDetail.Some? && e.extraDetail.value != ""
  }

  /** `str(error)`: the detail, then " :: " and the extra detail when there is one. */
  function Message(e: CustomError): (r: string)
    ensures StartsWith(r, e.detail)
    ensures r == e.detail <==> !HasExtra(e)
    ensures HasExtra(e) ==> r[|e.detail|..] == Separator + e.extraDetail.value
  {
    if HasExtra(e) then e.detail + Separator + e.extraDetail.value else e.detail
  }

  /** The extra detail can be read back from the message. */
  lemma ExtraRecoverable(e: CustomError)
    requires HasExtra(e)
    ensures Message(e)[|e.detail| + |Separator|..] == e.extraDetail.value
  {
    var r := Message(e);
    assert r[|e.detail|..] == Separator + e.extraDetail.value;
    assert r[|e.detail| + |Separator|..] == r[|e.detail|..][|Separator|..];
  }
}
