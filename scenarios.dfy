/** Worked expansions over small implication lists. */
module Scenarios {
  import opened Entities
  import opened Worklist
  import opened Storage
  import Query

  const A: Tag := Tag(1, "a")
  const B: Tag := Tag(2, "b")

  /** a implies b, and b implies a. */
  function Cycle(): seq<Implication>
  {
    [Implication(A, ZeroValue, B, ZeroValue), Implication(B, ZeroValue, A, ZeroValue)]
  }

  /** Expanding `a` over a two-tag cycle terminates; the leaf's own pair is
      not marked as seen, so `a` comes back as the second term. */
  lemma CycleExpansion()
    ensures AddImpliedTagsRecursive(Query.Tag("a"), Cycle())
            == Query.Or(Query.Or(Query.Tag("a"), Query.Tag("b")), Query.Tag("a"))
  {
    var impls := Cycle();
    var ba := impls[1];
    var ab := impls[0];
    assert ThatImply(impls, "a", "") == [ba];
    assert Further(impls, ba) == [ab];
    assert Further(impls, ab) == [ba];
    CloseStep(impls, [ba], 0);
    assert Absorb([ba], [ab]) == [ba, ab];
    CloseStep(impls, [ba, ab], 1);
    assert Absorb([ba, ab], [ba]) == [ba, ab];
    assert Closure(impls, "a", "") == [ba, ab];
  }

  const Year: Tag := Tag(3, "year")
  const Recent: Tag := Tag(4, "recent")
  const Mammal: Tag := Tag(5, "mammal")
  const Dog: Tag := Tag(6, "dog")

  /** year=2020 implies recent, dog implies mammal. */
  function Catalogue(): seq<Implication>
  {
    [Implication(Year, Value(7, "2020"), Recent, ZeroValue), Implication(Dog, ZeroValue, Mammal, ZeroValue)]
  }

  /** A valued implying pair becomes an equality comparison, and operands
      of And and Not are expanded in place. */
  lemma ValuedExpansion()
    ensures AddImpliedTagsRecursive(Query.And(Query.Tag("recent"), Query.Not(Query.Tag("mammal"))), Catalogue())
            == Query.And(Query.Or(Query.Tag("recent"), Query.Comparison("year", "=", "2020")),
                         Query.Not(Query.Or(Query.Tag("mammal"), Query.Tag("dog"))))
  {
    var impls := Catalogue();
    assert ThatImply(impls, "recent", "") == [impls[0]];
    assert Further(impls, impls[0]) == [];
    CloseStep(impls, [impls[0]], 0);
    assert Closure(impls, "recent", "") == [impls[0]];
    assert ThatImply(impls, "mammal", "") == [impls[1]];
    assert Further(impls, impls[1]) == [];
    CloseStep(impls, [impls[1]], 0);
    assert Closure(impls, "mammal", "") == [impls[1]];
  }

  const Animal: Tag := Tag(8, "animal")
  const Cat: Tag := Tag(9, "cat")
  const Puppy: Tag := Tag(10, "puppy")

  /** dog implies animal, cat implies animal, puppy implies dog, in the
      order the listing returns them (by implying tag name). */
  function Pets(): seq<Implication>
  {
    [Implication(Cat, ZeroValue, Animal, ZeroValue),
     Implication(Dog, ZeroValue, Animal, ZeroValue),
     Implication(Puppy, ZeroValue, Dog, ZeroValue)]
  }

  /** The direct implying tags come first, in list order; puppy, reached
      through dog, comes after them. */
  lemma TransitiveExpansion()
    ensures AddImpliedTagsRecursive(Query.Tag("animal"), Pets())
            == Query.Or(Query.Or(Query.Or(Query.Tag("animal"), Query.Tag("cat")), Query.Tag("dog")), Query.Tag("puppy"))
  {
    var impls := Pets();
    var cat, dog, puppy := impls[0], impls[1], impls[2];
    assert ThatImply(impls, "animal", "") == [cat, dog];
    assert Further(impls, cat) == [];
    assert Further(impls, dog) == [puppy];
    assert Further(impls, puppy) == [];
    CloseStep(impls, [cat, dog], 0);
    assert Absorb([cat, dog], []) == [cat, dog];
    CloseStep(impls, [cat, dog], 1);
    assert Absorb([cat, dog], [puppy]) == [cat, dog, puppy];
    CloseStep(impls, [cat, dog, puppy], 2);
    assert Absorb([cat, dog, puppy], []) == [cat, dog, puppy];
    assert Closure(impls, "animal", "") == [cat, dog, puppy];
  }
}
