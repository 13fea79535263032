/** The course catalogue the website ships as constant data: four six-month
    courses at R1500 and three six-week courses at R750. */
module Catalogue {

  /** The two programme lengths; the website tags them "six-month" and
      "six-week". */
  datatype Category = SixMonth | SixWeek

  datatype Course = Course(
    id: string,
    name: string,
    description: string,
    fee: nat,
    duration: string,
    category: Category)

  const SixMonthCourses: seq<Course> := [
    Course("sm1", "First Aid",
      "Learn essential first aid skills including CPR, wound care, and emergency response procedures.",
      1500, "6 months", SixMonth),
    Course("sm2", "Sewing",
      "Master garment construction, pattern making, and professional sewing techniques.",
      1500, "6 months", SixMonth),
    Course("sm3", "Landscaping",
      "Comprehensive training in garden design, plant care, and landscape maintenance.",
      1500, "6 months", SixMonth),
    Course("sm4", "Life Skills",
      "Develop essential life skills including financial literacy, communication, and time management.",
      1500, "6 months", SixMonth)
  ]

  const SixWeekCourses: seq<Course> := [
    Course("sw1", "Child Minding",
      "Professional childcare training covering child development, safety, and activities.",
      750, "6 weeks", SixWeek),
    Course("sw2", "Cooking",
      "Culinary skills training including meal preparation, nutrition, and kitchen safety.",
      750, "6 weeks", SixWeek),
    Course("sw3", "Garden Maintenance",
      "Learn practical garden maintenance, pruning, and seasonal plant care.",
      750, "6 weeks", SixWeek)
  ]

  /** The calculator lists the six-month courses, then the six-week ones. */
  const CalculatorCourses: seq<Course> := SixMonthCourses + SixWeekCourses

  /** No two courses of `cs` share an identifier. */
  predicate DistinctIds(cs: seq<Course>) {
    forall i, j :: 0 <= i < j < |cs| ==> cs[i].id != cs[j].id
  }

  /** The identifiers of `cs`. */
  function Ids(cs: seq<Course>): (ids: set<string>) {
    if cs == [] then {} else {cs[0].id} + Ids(cs[1..])
  }

  /** An identifier is among `Ids(cs)` exactly when some course of `cs`
      carries it. */
  lemma {:induction false} IdsIndex(cs: seq<Course>, id: string)
    ensures id in Ids(cs) <==> exists i :: 0 <= i < |cs| && cs[i].id == id
  {
    if cs != [] {
      var rest := cs[1..];
      IdsIndex(rest, id);
      if id in Ids(rest) {
        var i :| 0 <= i < |rest| && rest[i].id == id;
        assert cs[i + 1].id == id;
      }
      if exists i :: 0 <= i < |cs| && cs[i].id == id {
        var i :| 0 <= i < |cs| && cs[i].id == id;
        if i > 0 {
          assert rest[i - 1].id == id;
        }
      }
    }
  }

  /** Dropping the first course keeps the identifiers unique. */
  lemma DistinctIdsTail(cs: seq<Course>)
    requires DistinctIds(cs) && cs != []
    ensures DistinctIds(cs[1..])
  {
    var rest := cs[1..];
    forall i, j | 0 <= i < j < |rest| ensures rest[i].id != rest[j].id {
      assert rest[i] == cs[i + 1] && rest[j] == cs[j + 1];
    }
  }

  /** The catalogue is well formed: identifiers are unique, each partition
      holds only its own category with the matching duration, and every fee
      lies between R750 and R1500. */
  lemma CatalogueWellFormed()
    ensures |SixMonthCourses| == 4 && |SixWeekCourses| == 3
    ensures DistinctIds(CalculatorCourses)
    ensures forall c :: c in SixMonthCourses ==> c.category == SixMonth && c.duration == "6 months" && c.fee == 1500
    ensures forall c :: c in SixWeekCourses ==> c.category == SixWeek && c.duration == "6 weeks" && c.fee == 750
    ensures forall c :: c in CalculatorCourses ==> 750 <= c.fee <= 1500
  {
  }
}
