/** The kinds of reward that handlers name by number. */
module DropTypes {
  import opened Word32

  const DROP_TYPE_RESOURCE: u32 := 1
  const DROP_TYPE_ITEM: u32 := 2
  const DROP_TYPE_EQUIP: u32 := 3
  const DROP_TYPE_SHIP: u32 := 4
  const DROP_TYPE_FURNITURE: u32 := 5
  const DROP_TYPE_SKIN: u32 := 7
  const DROP_TYPE_VITEM: u32 := 8
  const DROP_TYPE_LOVE_LETTER: u32 := 19
}
