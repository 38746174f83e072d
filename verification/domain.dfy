/**
 * Entity base records and their declared equality members: the `Equals(BaseEntity?)`
 * and `EqualsCore` bodies of `BaseEntity` compare `Id`s, the `Equals(ISubjectOwnable?)`
 * overload of `PdsrUserBase<TKey>` compares `SubjectId`s,
 * `PdsrUserBaseSubjectId` stores `Id` and `SubjectId` in one shared field,
 * and `IsOwner` tests a subject against an owned object.
 */
module Domain {
  import opened Wrappers

  // ---------------------------------------------------------------------------
  // BaseEntity (integer key)
  // ---------------------------------------------------------------------------

  /** A `BaseEntity` as the declared `EqualsCore` body sees it: its `Id`, and state that body does not read (`rest`). */
  datatype BaseEntity<R> = BaseEntity(id: int, rest: R)

  /** What `EqualsCore(object? other)` can be handed: null, some entity, or an object of another type. */
  datatype Object<R> = Null | Entity(entity: BaseEntity<R>) | NotAnEntity

  /** `EqualsCore`: false for null and for non-entities, otherwise the `Id`s are compared. */
  function EqualsCore<R>(self: BaseEntity<R>, other: Object<R>): (r: bool)
    ensures other.Null? ==> !r
    ensures other.NotAnEntity? ==> !r
    ensures r ==> other.Entity? && other.entity.id == self.id
  {
    match other
    case Null => false
    case NotAnEntity => false
    case Entity(e) => self.id == e.id
  }

  /** `Equals(BaseEntity? other)`, which forwards to `EqualsCore`. */
  function Equals<R>(self: BaseEntity<R>, other: Option<BaseEntity<R>>): (r: bool)
    ensures other.None? ==> !r
  {
    EqualsCore(self, if other.Some? then Entity(other.value) else Null)
  }

  /** `GetHashCode` forwards to `GetHashCodeCore`, the hash of `Id`; an `int` hashes to itself. */
  function GetHashCode<R>(self: BaseEntity<R>): (h: int)
    ensures h == self.id
  {
    self.id
  }

  /** Under the declared `Equals(BaseEntity?)` body, two entities are equal exactly when their ids are; `rest` takes no part. */
  lemma EqualsIffSameId<R>(a: BaseEntity<R>, b: BaseEntity<R>, ra: R, rb: R)
    ensures Equals(a, Some(b)) <==> a.id == b.id
    ensures Equals(a, Some(b)) == Equals(a.(rest := ra), Some(b.(rest := rb)))
  {
  }

  /** The declared `Equals(BaseEntity?)` body is an equivalence relation. */
  lemma EqualsIsEquivalence<R>(a: BaseEntity<R>, b: BaseEntity<R>, c: BaseEntity<R>)
    ensures Equals(a, Some(a))
    ensures Equals(a, Some(b)) == Equals(b, Some(a))
    ensures Equals(a, Some(b)) && Equals(b, Some(c)) ==> Equals(a, Some(c))
  {
  }

  /** Entities equal under the declared `Equals(BaseEntity?)` body have equal hash codes. */
  lemma EqualsAgreesWithHash<R>(a: BaseEntity<R>, b: BaseEntity<R>)
    ensures Equals(a, Some(b)) ==> GetHashCode(a) == GetHashCode(b)
  {
  }

  // ---------------------------------------------------------------------------
  // BaseEntity<TKey>
  // ---------------------------------------------------------------------------

  /** A `BaseEntity<TKey>` record: a key of any type. */
  datatype KeyedEntity<K> = KeyedEntity(id: K)

  /** The `BaseEntity<TKey>(id)` constructor. */
  function NewKeyedEntity<K>(id: K): (e: KeyedEntity<K>)
    ensures e.id == id
  {
    KeyedEntity(id)
  }

  // ---------------------------------------------------------------------------
  // ISubjectOwnable, PdsrUserBase<TKey>, PdsrUserBase
  // ---------------------------------------------------------------------------

  /** Anything that implements `ISubjectOwnable`, seen through that interface: only its subject. */
  datatype SubjectOwnable = SubjectOwnable(subjectId: string)

  /** A `PdsrUserBase<TKey>` record: key and subject (the timestamps are not modelled). */
  datatype UserBase<K> = UserBase(id: K, subjectId: string)

  /** A user seen through `ISubjectOwnable`. */
  function AsOwnable<K>(u: UserBase<K>): (o: SubjectOwnable)
    ensures o.subjectId == u.subjectId
  {
    SubjectOwnable(u.subjectId)
  }

  /** The `PdsrUserBase<TKey>(id, subjectId)` constructor, also `PdsrUserBase(id, subjectId)`. */
  function NewUser<K>(id: K, subjectId: string): (u: UserBase<K>)
    ensures u.id == id && u.subjectId == subjectId
  {
    UserBase(id, subjectId)
  }

  /** The single-argument `PdsrUserBase(subjectId)` constructor: the subject doubles as the key. */
  function NewUserFromSubject(subjectId: string): (u: UserBase<string>)
    ensures u.id == u.subjectId == subjectId
  {
    NewUser(subjectId, subjectId)
  }

  /** `PdsrUserBase<TKey>.Equals(ISubjectOwnable? other)`. */
  function UserEquals<K>(self: UserBase<K>, other: Option<SubjectOwnable>): (r: bool)
    ensures other.None? ==> !r
  {
    if other.None? then false else self.subjectId == other.value.subjectId
  }

  /** Under the `Equals(ISubjectOwnable?)` overload, two users are equal exactly when their subjects are; the key takes no part. */
  lemma UserEqualsIffSameSubject<K>(a: UserBase<K>, b: UserBase<K>, ka: K, kb: K)
    ensures UserEquals(a, Some(AsOwnable(b))) <==> a.subjectId == b.subjectId
    ensures UserEquals(a, Some(AsOwnable(b))) == UserEquals(a.(id := ka), Some(AsOwnable(b.(id := kb))))
  {
  }

  /** `IsOwner`: the owned object's subject is the given one. */
  function IsOwner(source: SubjectOwnable, subjectId: string): (r: bool)
    ensures r <==> source.subjectId == subjectId
  {
    source.subjectId == subjectId
  }

  /** Every object owns its own subject, and ownership depends on the subject alone. */
  lemma IsOwnerReflexive(source: SubjectOwnable, other: SubjectOwnable)
    ensures IsOwner(source, source.subjectId)
    ensures source.subjectId == other.subjectId ==> forall s :: IsOwner(source, s) == IsOwner(other, s)
  {
  }

  /** The `Equals(ISubjectOwnable?)` overload and ownership agree: a user equals a non-null object iff it owns that object's subject. */
  lemma UserEqualsIsOwnership<K>(u: UserBase<K>, o: SubjectOwnable)
    ensures UserEquals(u, Some(o)) == IsOwner(AsOwnable(u), o.subjectId)
  {
  }

  // ---------------------------------------------------------------------------
  // PdsrUserBaseSubjectId
  // ---------------------------------------------------------------------------

  /**
   * A `PdsrUserBaseSubjectId` object. Its `Id` and `SubjectId` properties both read and
   * write the one field `subjectIdField`. The base record's own `SubjectId` (which the
   * inherited `Equals(ISubjectOwnable)` reads) is set once by the constructor and kept
   * in `baseSubjectId`.
   */
  class SubjectIdUser {
    var subjectIdField: string
    const baseSubjectId: string

    /** `PdsrUserBaseSubjectId(subjectId)`. */
    constructor (subjectId: string)
      ensures Id() == subjectId && SubjectId() == subjectId
      ensures baseSubjectId == subjectId
    {
      baseSubjectId := subjectId;
      subjectIdField := subjectId;
    }

    /** The hiding `Id` getter. */
    function Id(): string
      reads this
    {
      subjectIdField
    }

    /** The hiding `SubjectId` getter. */
    function SubjectId(): string
      reads this
    {
      subjectIdField
    }

    /** The hiding `Id` setter: the new value is visible through both properties. */
    method SetId(value: string)
      modifies this
      ensures Id() == value && SubjectId() == value
    {
      subjectIdField := value;
    }

    /** `Equals(PdsrUserBase? other)`: false for null, otherwise the subjects are compared. */
    function EqualsUser(other: Option<UserBase<string>>): (r: bool)
      reads this
      ensures r <==> other.Some? && other.value.subjectId == SubjectId()
    {
      if other.None? then false else SubjectId() == other.value.subjectId
    }

    /** The inherited `Equals(ISubjectOwnable? other)`, which reads the base record's subject. */
    function EqualsOwnable(other: Option<SubjectOwnable>): (r: bool)
      reads this
      ensures r <==> other.Some? && other.value.subjectId == baseSubjectId
    {
      UserEquals(UserBase(subjectIdField, baseSubjectId), other)
    }
  }
}
