/** The optional value used for JavaScript's `null` and `undefined`. */
module Wrappers {

  datatype Option<+T> = None | Some(value: T)

  /**
   * `u || null` for an optional string: an empty string is falsy in
   * JavaScript, so it counts as no value.
   */
  function OrNull(u: Option<string>): (r: Option<string>)
    ensures r.Some? ==> r == u && r.value != ""
    ensures u.Some? && u.value != "" ==> r == u
  {
    if u.Some? && u.value != "" then u else None
  }

  /** `s || fallback` for an optional string. */
  function OrElse(u: Option<string>, fallback: string): (r: string)
    ensures u.Some? && u.value != "" ==> r == u.value
    ensures (u.None? || u.value == "") ==> r == fallback
  {
    if u.Some? && u.value != "" then u.value else fallback
  }
}

/** The records the editor-shell components hand to one another. */
module Records {
  import opened Wrappers

  /**
   * A tab descriptor as passed to `openTab` and kept in the tab list
   * (`title` stands for `tabData.label`, since `label` is a Dafny keyword):
   * `id` is the tab's identity, `contentId` the key handed to the content
   * manager, `url` the direct link of a PDF (or null).
   */
  datatype Tab = Tab(id: string, title: string, language: string, contentId: string, url: Option<string>)
}
