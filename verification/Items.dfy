/** What the daemons hand off. */
module Items {
  datatype Kind = Text | Image | File
}
