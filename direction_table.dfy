/** The table of the design notes that maps the direction of a long-press drag
    to the global action it stands for. The classifier that picks a direction
    from (dx, dy) lives in `handleDirection`, whose body is not part of this
    model; only the table is. */
module DirectionTable {

  datatype Direction = Left | Right | Up | Down

  datatype NavAction = Back | Recent | Home | Notifications

  /** Left goes back, right opens the recent tasks, up goes home and down
      pulls the notification shade. */
  function ActionFor(d: Direction): NavAction {
    match d
    case Left => Back
    case Right => Recent
    case Up => Home
    case Down => Notifications
  }

  /** The inverse of the table: every action is reached by exactly one
      direction, so the table is a one-to-one map onto the four actions. */
  function DirectionFor(a: NavAction): (d: Direction)
    ensures ActionFor(d) == a
    ensures forall d' :: ActionFor(d') == a ==> d' == d
  {
    match a
    case Back => Left
    case Recent => Right
    case Home => Up
    case Notifications => Down
  }
}
