/** The two comparison types the vector's partial order answers in:
    `Option` and the three-way `Ordering`. */
module Cmp {

  datatype Option<+T> = None | Some(value: T)

  /** The outcome of comparing two values. */
  datatype Ordering = Less | Equal | Greater

  /** The ordering seen from the other operand's side. */
  function Reverse(o: Ordering): Ordering {
    match o
    case Less => Greater
    case Equal => Equal
    case Greater => Less
  }

  /** `Reverse` lifted through `Option`: incomparable stays incomparable. */
  function ReverseOption(o: Option<Ordering>): Option<Ordering> {
    match o
    case None => None
    case Some(v) => Some(Reverse(v))
  }
}
