/** The one textual convention the back end and the front end share beyond
    the JSON field names: an answer that begins with this phrase is an
    apology, not a symptom label. */
module Wire {

  const ApologyMarker := "I am sorry"
}
