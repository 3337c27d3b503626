/** The badges and icons the list pages draw next to a record: a caption and
    the colour scheme (or `variant`) it is drawn in. */
module Badges {

  /** Colour schemes the pages use: theme classes (`bg-success`, ...), the
      component variants (`outline`, `secondary`, `destructive`), the
      explicit green / yellow / red classes of the deposit badge, and
      `Plain` for a badge or icon drawn with no class or variant. */
  datatype Tone =
    | Success | Warning | Muted | Destructive
    | Outline | Secondary
    | OccupiedTone | VacantTone
    | Green | Yellow | Red
    | Plain

  datatype Badge = Badge(caption: string, tone: Tone)
}
