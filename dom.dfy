/**
  The rendering surface reduced to what the scripts read and write: an
  element is a record of its `hidden` class flag and its text content.
  An element the page may lack is an `Option<Element>`.
 */
module Dom {
  import opened Wrappers

  datatype Element = Element(hidden: bool, text: string)

  /** `classList.remove('hidden')` on an element that may be missing. */
  function Reveal(e: Option<Element>): (r: Option<Element>)
    ensures r.Some? <==> e.Some?
    ensures r.Some? ==> !r.value.hidden && r.value.text == e.value.text
  {
    if e.Some? then Some(e.value.(hidden := false)) else None
  }

  /** `classList.add('hidden')` on an element that may be missing. */
  function Conceal(e: Option<Element>): (r: Option<Element>)
    ensures r.Some? <==> e.Some?
    ensures r.Some? ==> r.value.hidden && r.value.text == e.value.text
  {
    if e.Some? then Some(e.value.(hidden := true)) else None
  }
}
