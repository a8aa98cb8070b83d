/** The blueprint's type descriptor and the schema library's type reference,
    and the mapping `to_type_ref` between them. */
module TypeRefs {
  import opened Wrappers

  /** The blueprint's abstract type descriptor. */
  datatype Type =
    | NamedType(name: string, nonNull: bool)
    | ListType(ofType: Type, nonNull: bool)
  {
    /** Number of list layers around the base type. */
    function ListDepth(): nat {
      match this
      case NamedType(_, _) => 0
      case ListType(of, _) => 1 + of.ListDepth()
    }

    /** The name at the bottom of the list layers. */
    function BaseName(): string {
      match this
      case NamedType(n, _) => n
      case ListType(of, _) => of.BaseName()
    }

    /** Number of layers (the list layers and the base) marked non-null. */
    function NonNullCount(): nat {
      match this
      case NamedType(_, nn) => if nn then 1 else 0
      case ListType(of, nn) => (if nn then 1 else 0) + of.NonNullCount()
    }
  }

  /** The schema library's type reference: a tree of `Named`, `List` and
      `NonNull` wrappers. */
  datatype TypeRef =
    | Named(name: string)
    | List(ofType: TypeRef)
    | NonNull(ofType: TypeRef)
  {
    function ListDepth(): nat {
      match this
      case Named(_) => 0
      case List(of) => 1 + of.ListDepth()
      case NonNull(of) => of.ListDepth()
    }

    function BaseName(): string {
      match this
      case Named(n) => n
      case List(of) => of.BaseName()
      case NonNull(of) => of.BaseName()
    }

    function NonNullCount(): nat {
      match this
      case Named(_) => 0
      case List(of) => of.NonNullCount()
      case NonNull(of) => 1 + of.NonNullCount()
    }
  }

  /** No `NonNull` directly wraps another `NonNull` anywhere in the tree. */
  predicate WellFormed(r: TypeRef) {
    match r
    case Named(_) => true
    case List(of) => WellFormed(of)
    case NonNull(of) => !of.NonNull? && WellFormed(of)
  }

  /** `to_type_ref`: map a descriptor onto a type reference; the non-null
      marker of each layer wraps exactly that layer. */
  function ToTypeRef(t: Type): (r: TypeRef)
    ensures WellFormed(r)
    ensures r.NonNull? <==> t.nonNull
    ensures r.ListDepth() == t.ListDepth()
    ensures r.BaseName() == t.BaseName()
    ensures r.NonNullCount() == t.NonNullCount()
  {
    match t
    case NamedType(name, nonNull) =>
      if nonNull then NonNull(Named(name)) else Named(name)
    case ListType(of, nonNull) =>
      var inner := ToTypeRef(of);
      if nonNull then NonNull(List(inner)) else List(inner)
  }

  /** The inverse reading of a type reference as a descriptor; `None` for a
      reference no descriptor produces. */
  function FromTypeRef(r: TypeRef): (t: Option<Type>)
    ensures t.Some? <==> WellFormed(r)
  {
    match r
    case Named(n) => Some(NamedType(n, false))
    case List(of) =>
      (match FromTypeRef(of)
       case Some(e) => Some(ListType(e, false))
       case None => None)
    case NonNull(Named(n)) => Some(NamedType(n, true))
    case NonNull(List(of)) =>
      (match FromTypeRef(of)
       case Some(e) => Some(ListType(e, true))
       case None => None)
    case NonNull(NonNull(_)) => None
  }

  /** Reading back the reference built for a descriptor yields that descriptor. */
  lemma {:induction false} FromToTypeRef(t: Type)
    ensures FromTypeRef(ToTypeRef(t)) == Some(t)
  {
    match t
    case NamedType(_, _) =>
    case ListType(of, _) =>
      FromToTypeRef(of);
  }

  /** Every well-formed reference is the image of the descriptor read from it:
      together with `FromToTypeRef`, `ToTypeRef` is a bijection onto the
      well-formed references. */
  lemma {:induction false} ToFromTypeRef(r: TypeRef)
    requires WellFormed(r)
    ensures FromTypeRef(r).Some? && ToTypeRef(FromTypeRef(r).value) == r
  {
    match r
    case Named(_) =>
    case List(of) =>
      ToFromTypeRef(of);
    case NonNull(Named(_)) =>
    case NonNull(List(of)) =>
      ToFromTypeRef(of);
  }

  /** Distinct descriptors map to distinct references. */
  lemma ToTypeRefInjective(a: Type, b: Type)
    ensures ToTypeRef(a) == ToTypeRef(b) ==> a == b
  {
    FromToTypeRef(a);
    FromToTypeRef(b);
  }

  /** A descriptor's own non-null flag adds or removes exactly one outer
      `NonNull` and leaves everything inside it alone. */
  lemma NonNullWrapsOuter(t: Type)
    ensures ToTypeRef(t.(nonNull := true)) == NonNull(ToTypeRef(t.(nonNull := false)))
    ensures ToTypeRef(t.(nonNull := false)) == ToTypeRef(t.(nonNull := true)).ofType
  {
  }
}
