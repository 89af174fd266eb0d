/** The UI tree that the pipeline produces, validates and serialises, the
    closed registry of component names, and the errors the pipeline raises. */
module UiTree {
  import opened Strings

  datatype Option<T> = None | Some(value: T)

  /** A JSON-like prop value. `undefined` is folded into `Null`: the
      serialiser treats both alike and deep copies drop neither from a tree
      the generator built. Only integral numbers are modelled. */
  datatype Value =
    | Str(s: string)
    | Num(n: int)
    | Bool(b: bool)
    | Null
    | Arr(items: seq<Value>)
    | Obj(fields: seq<(string, Value)>)

  /** A props object as its entries, in insertion order. */
  type Props = seq<(string, Value)>

  /** A node of the tree. A JavaScript node without a `children` field is the
      node with no children; a node whose `component` is missing or empty is
      the node whose component is "". */
  datatype Node = Node(component: string, props: Props, children: seq<Node>)

  /** The errors the pipeline throws, one per distinct `Error` it constructs. */
  datatype Error =
    | InvalidComponent(name: string)
    | MissingComponent
    | NoTreeToPatch
    | InvalidPlanType
    | NullProperty(property: string)

  datatype Result<T> = Ok(value: T) | Err(error: Error)

  /** What a check that returns `true` or throws comes to. */
  datatype Outcome = Pass | Fail(error: Error)

  /** The component registry, in its declared order. */
  const AllowedComponents: seq<string> :=
    ["Button", "Card", "Input", "Table", "Modal", "Sidebar", "Navbar", "Chart"]

  /** The registry the React side keeps; it must match `AllowedComponents`. */
  const LibraryWhitelist: seq<string> :=
    ["Button", "Card", "Input", "Table", "Modal", "Sidebar", "Navbar", "Chart"]

  lemma RegistriesAgree()
    ensures LibraryWhitelist == AllowedComponents
  {
  }

  /** Whether `name` is one of `names`, checked one entry at a time. */
  predicate Listed(name: string, names: seq<string>) {
    names != [] && (names[0] == name || Listed(name, names[1..]))
  }

  lemma {:induction false} ListedIsIn(name: string, names: seq<string>)
    ensures Listed(name, names) <==> name in names
  {
    if names != [] {
      ListedIsIn(name, names[1..]);
      assert names == [names[0]] + names[1..];
    }
  }

  /** `ALLOWED_COMPONENTS.includes(name)`. */
  predicate Allowed(name: string) {
    Listed(name, AllowedComponents)
  }

  lemma AllowedIsRegistered(name: string)
    ensures Allowed(name) <==> name in AllowedComponents
  {
    ListedIsIn(name, AllowedComponents);
  }

  /** `validateComponent`: passes exactly the registry's names and names the
      rejected one otherwise. */
  function ValidateComponent(name: string): (r: Outcome)
    ensures r.Pass? <==> name in {"Button", "Card", "Input", "Table", "Modal", "Sidebar", "Navbar", "Chart"}
    ensures r.Fail? ==> r.error == InvalidComponent(name)
  {
    AllowedIsRegistered(name);
    if Allowed(name) then Pass else Fail(InvalidComponent(name))
  }

  /** The `message` of each thrown error. */
  function Message(e: Error): string {
    match e
    case InvalidComponent(name) =>
      "Invalid component: " + name + ". Allowed: " + Join(", ", AllowedComponents)
    case MissingComponent => "Invalid tree: missing component"
    case NoTreeToPatch => "Cannot patch: no existing tree"
    case InvalidPlanType => "Invalid plan type"
    // The TypeError wording of V8 from Node.js 16.9 on; older releases say
    // "Cannot read property 'p' of null".
    case NullProperty(property) => "Cannot read properties of null (reading '" + property + "')"
  }

  /** `props[key]` for a props object whose keys are distinct: the first
      entry with that key. */
  function Lookup(props: Props, key: string): (r: Option<Value>)
    ensures r.Some? <==> exists i :: 0 <= i < |props| && props[i].0 == key
    ensures r.Some? ==> exists i :: 0 <= i < |props| && props[i] == (key, r.value)
  {
    if props == [] then None
    else if props[0].0 == key then Some(props[0].1)
    else Lookup(props[1..], key)
  }
}
