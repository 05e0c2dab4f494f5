/** The records the controller, the prompt builder and the settings panel share. */
module Types {

  datatype Option<+T> = None | Some(value: T)

  /** A catalog entry: unique identifier, display name, icon glyph and accent colour. */
  datatype AppDefinition = AppDefinition(id: string, name: string, icon: string, color: string)

  /** One user gesture. The optional fields (elementText, elementType, value,
      appContext) are strings in which "" stands for an absent field. Most uses
      of them test truthiness (`a || b`, `if (a)`), which treats an absent
      field and an empty string alike; the one other use compares appContext
      with catalog ids by `===`, and since no catalog id is empty, an absent
      context and "" both match no entry. */
  datatype Interaction = Interaction(
    id: string,
    kind: string,
    elementText: string,
    elementType: string,
    value: string,
    appContext: string)

  /** The JavaScript `a || b` on two strings. */
  function OrElse(a: string, b: string): string {
    if a != "" then a else b
  }
}
