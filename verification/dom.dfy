/** The inline style values the script writes into the document. */
module Dom {

  /** The inline `style.display` of an element: never written yet, "block" or "none". */
  datatype Display = Unstyled | Block | Hidden
}
