/**
 * A person in the directory: an immutable record with a weak identity (same name) and a
 * stronger equality over the identity and data fields.
 */
module Persons {
  import opened Wrappers
  import opened Times

  /** The single lesson slot a person carries: a day and a start and end time. */
  datatype Subject = Subject(day: string, startTime: Time, endTime: Time)

  /**
   * Name, phone, school, address and tags cannot be null (their types have no null);
   * the subject may be absent. The tag set is a value, so the person's copy cannot be
   * changed through the caller's set.
   */
  datatype Person = Person(name: string, phone: string, school: string, address: string,
                           tags: set<string>, subject: Option<Subject>)

  /** `getDay`: the subject's day, or null when there is no subject. */
  function GetDay(p: Person): (d: Option<string>)
    ensures d.Some? <==> p.subject.Some?
    ensures d.Some? ==> d.value == p.subject.value.day
  {
    match p.subject
    case Some(s) => Some(s.day)
    case None => None
  }

  /** `isSamePerson`: the weak identity. `None` stands for a null argument. */
  predicate IsSamePerson(p: Person, other: Option<Person>)
    ensures other == Some(p) ==> IsSamePerson(p, other)
    ensures other.None? ==> !IsSamePerson(p, other)
  {
    other.Some? && other.value.name == p.name
  }

  /** `equals`: name, phone, school, address and tags agree; the subject is not compared. */
  predicate Equals(p: Person, other: Option<Person>)
    ensures other.Some? ==> (Equals(p, other) <==> p.(subject := other.value.subject) == other.value)
    ensures Equals(p, other) ==> IsSamePerson(p, other)
  {
    && other.Some?
    && p.name == other.value.name
    && p.phone == other.value.phone
    && p.school == other.value.school
    && p.address == other.value.address
    && p.tags == other.value.tags
  }

  lemma IsSamePersonReflexive(p: Person)
    ensures IsSamePerson(p, Some(p))
  {
  }

  lemma IsSamePersonRejectsNull(p: Person)
    ensures !IsSamePerson(p, None)
  {
  }

  /** Same identity is exactly equal names, hence symmetric and transitive. */
  lemma IsSamePersonIsNameEquality(p: Person, q: Person)
    ensures IsSamePerson(p, Some(q)) <==> p.name == q.name
    ensures IsSamePerson(p, Some(q)) <==> IsSamePerson(q, Some(p))
  {
  }

  lemma IsSamePersonTransitive(p: Person, q: Person, r: Person)
    requires IsSamePerson(p, Some(q)) && IsSamePerson(q, Some(r))
    ensures IsSamePerson(p, Some(r))
  {
  }

  /** The strong equality implies the weak identity. */
  lemma EqualsImpliesSamePerson(p: Person, q: Person)
    requires Equals(p, Some(q))
    ensures IsSamePerson(p, Some(q))
  {
  }

  lemma EqualsIsEquivalence(p: Person, q: Person, r: Person)
    ensures Equals(p, Some(p))
    ensures Equals(p, Some(q)) ==> Equals(q, Some(p))
    ensures Equals(p, Some(q)) && Equals(q, Some(r)) ==> Equals(p, Some(r))
  {
  }

  /** Changing only the subject yields an equal person, and equality is then not identity of values. */
  lemma EqualsIgnoresSubject(p: Person, s: Option<Subject>)
    ensures Equals(p, Some(p.(subject := s)))
    ensures s != p.subject ==> p != p.(subject := s)
  {
  }

  /** Two persons that differ in a data field are the same person but not equal. */
  lemma SamePersonNotEqual(p: Person, phone: string)
    requires phone != p.phone
    ensures IsSamePerson(p, Some(p.(phone := phone)))
    ensures !Equals(p, Some(p.(phone := phone)))
  {
  }
}
