/** The optional value used wherever the editor holds "at most one" of something:
    a selection, an active drag, a ray hit. */
module Options {
  datatype Option<+T> = None | Some(value: T)
}
