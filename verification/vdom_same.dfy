/** When two vnodes may share a DOM node, and looking an old one up by key. */
module VdomSame {
  import opened Common
  import opened VdomDom

  /**
   * A vnode key. `===` compares type and value; as the property name of an object a key is its
   * string form alone, so the number 1 and the string "1" collide there.
   */
  datatype Key = Key(isNumber: bool, name: string)

  /** The `type` attribute, as `sameInputType` digs it out: `false` without attributes, else possibly undefined. */
  datatype InputType = NoAttrs | NoType | Type(name: string)

  datatype Factory = Factory(id: nat, failed: bool)

  /** What `sameVnode` looks at. */
  datatype Info = Info(
    key: Option<Key>,
    tag: Option<string>,
    isComment: bool,
    hasData: bool,
    inputType: InputType,
    isAsyncPlaceholder: bool,
    asyncFactory: Option<Factory>)

  const TEXT_INPUT_TYPES: set<string> := {"text", "number", "password", "search", "email", "tel", "url"}

  predicate IsTextInputType(t: InputType) {
    t.Type? && t.name in TEXT_INPUT_TYPES
  }

  predicate SameInputType(a: Info, b: Info) {
    a.tag != Some("input") || a.inputType == b.inputType
        || (IsTextInputType(a.inputType) && IsTextInputType(b.inputType))
  }

  predicate SameVnode(a: Info, b: Info) {
    && a.key == b.key
    && ((a.tag == b.tag && a.isComment == b.isComment && a.hasData == b.hasData && SameInputType(a, b))
        || (a.isAsyncPlaceholder && a.asyncFactory == b.asyncFactory
            && (b.asyncFactory.Some? ==> !b.asyncFactory.value.failed)))
  }

  /** An old vnode with its DOM node, and a vnode that may have none yet. */
  datatype Mounted = Mounted(info: Info, elm: Elm)
  datatype VNode = VNode(info: Info, elm: Option<Elm>)

  // ----- keys as property names -----

  /** The names every object literal already answers to. */
  const INHERITED: seq<string> := [
    "constructor", "hasOwnProperty", "isPrototypeOf", "propertyIsEnumerable", "toLocaleString", "toString", "valueOf",
    "__proto__", "__defineGetter__", "__defineSetter__", "__lookupGetter__", "__lookupSetter__"]

  predicate OneOf(names: seq<string>, name: string) {
    names != [] && (names[0] == name || OneOf(names[1..], name))
  }

  predicate IsInherited(name: string) {
    OneOf(INHERITED, name)
  }

  /** Assigning to this property of an object literal does not make an own property. */
  predicate IsProto(name: string) {
    name == "__proto__"
  }

  /** What reading a property of the key table gives; an inherited member is neither an index nor undefined. */
  datatype Lookup = Found(index: nat) | Missing | InheritedMember

  function Find(m: map<string, nat>, name: string): Lookup {
    if name in m then Found(m[name]) else if IsInherited(name) then InheritedMember else Missing
  }

  predicate HasName(v: Info, name: string) {
    v.key.Some? && v.key.value.name == name
  }

  /** `map[key] = i`, for a key that is defined. */
  function WithEntry(m: map<string, nat>, v: Info, i: nat): map<string, nat> {
    if v.key.Some? && !IsProto(v.key.value.name) then m[v.key.value.name := i] else m
  }

  /** Keys that are defined are pairwise different as property names. */
  ghost predicate UniqueNames(vs: seq<Info>) {
    forall i, j :: 0 <= i < j < |vs| && vs[i].key.Some? && vs[j].key.Some? ==>
        vs[i].key.value.name != vs[j].key.value.name
  }
}
