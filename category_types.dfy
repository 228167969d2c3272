/** The category record as the client receives it from the server, restricted
    to the fields the modelled logic reads. */
module CategoryTypes {
  import opened JsCore

  /** A listing category. `description` and `image` are optional;
      `parentId` is absent for a root category; `children`
      is the nested sub-tree when the server sends one (empty otherwise). */
  datatype Category = Category(
    id: int,
    name: string,
    slug: string,
    description: Option<string>,
    image: Option<string>,
    parentId: Option<int>,
    active: bool,
    children: seq<Category>)
}
