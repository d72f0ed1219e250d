/** The kinds of ground item (MazeRumble/Item.swift, enum Item.ItemType); their appearance is not modelled. */
module Items {
  datatype ItemType = Stick | Bomb | Hook | Gun | Shield
}
