/** Record and mode declarations shared by the catalog and the controller (types.ts). */
module Types {

  /** A dish. `isCustom` is optional in the source; an absent flag reads as false. */
  datatype Recipe = Recipe(
    id: string,
    name: string,
    ingredients: seq<string>,
    category: string,
    isCustom: bool)

  /** The three mutually exclusive screens of the application. */
  datatype AppMode = RANDOM | FILTER | EXPLORE

  datatype Option<+T> = None | Some(value: T)
}
