/** The calculator form as a whole: the ticked course boxes become a list of
    fees in the order the calculator lists the courses, the submit handler
    validates the form, and only a valid form gets a quote. */
module Calculator {
  import opened Catalogue
  import opened Quote
  import opened Text
  import opened Validation

  datatype Option<T> = None | Some(value: T)

  /** The courses of `courses` whose box is ticked, in listing order: what
      `querySelectorAll('input[name="course"]:checked')` returns. */
  function Selected(courses: seq<Course>, checked: set<string>): (r: seq<Course>)
    ensures |r| <= |courses|
  {
    if courses == [] then []
    else (if courses[0].id in checked then [courses[0]] else []) + Selected(courses[1..], checked)
  }

  /** The fee of each selected course read back as a number. */
  function FeesOf(cs: seq<Course>): (fees: seq<real>)
    ensures |fees| == |cs|
  {
    seq(|cs|, i requires 0 <= i < |cs| => cs[i].fee as real)
  }

  /** Only ticked courses of the list are selected, each at most once, and
      every ticked one is. */
  lemma {:induction false} SelectedMembers(courses: seq<Course>, checked: set<string>)
    ensures |Selected(courses, checked)| <= |courses|
    ensures forall c :: c in Selected(courses, checked) <==> c in courses && c.id in checked
  {
    if courses != [] {
      SelectedMembers(courses[1..], checked);
      assert courses == [courses[0]] + courses[1..];
    }
  }

  /** With unique identifiers, the first course's identifier occurs nowhere
      else in the list. */
  lemma HeadIdUnique(courses: seq<Course>)
    requires DistinctIds(courses) && courses != []
    ensures courses[0].id !in Ids(courses[1..])
  {
    var rest := courses[1..];
    IdsIndex(rest, courses[0].id);
    forall i | 0 <= i < |rest| ensures rest[i].id != courses[0].id {
      assert rest[i] == courses[i + 1];
    }
  }

  /** With unique identifiers, the number of selected courses is the number
      of ticked identifiers that name a listed course. */
  lemma {:induction false} SelectedCount(courses: seq<Course>, checked: set<string>)
    requires DistinctIds(courses)
    ensures |Selected(courses, checked)| == |checked * Ids(courses)|
  {
    if courses != [] {
      var rest := courses[1..];
      var id := courses[0].id;
      HeadIdUnique(courses);
      DistinctIdsTail(courses);
      SelectedCount(rest, checked);
      assert Ids(courses) == {id} + Ids(rest);
      if id in checked {
        assert checked * Ids(courses) == {id} + checked * Ids(rest);
      } else {
        assert checked * Ids(courses) == checked * Ids(rest);
      }
    }
  }

  /** A course whose identifier does not occur in the list cannot change
      what is selected from it. */
  lemma {:induction false} SelectedIgnoresOthers(courses: seq<Course>, checked: set<string>, id: string)
    requires id !in Ids(courses)
    ensures Selected(courses, checked + {id}) == Selected(courses, checked)
  {
    if courses != [] {
      assert id !in Ids(courses[1..]);
      SelectedIgnoresOthers(courses[1..], checked, id);
    }
  }

  /** Selecting from two listings one after the other is selecting from
      their concatenation. */
  lemma {:induction false} SelectedAppend(a: seq<Course>, b: seq<Course>, checked: set<string>)
    ensures Selected(a + b, checked) == Selected(a, checked) + Selected(b, checked)
  {
    if a == [] {
      assert a + b == b;
    } else {
      var kept := if a[0].id in checked then [a[0]] else [];
      assert (a + b)[0] == a[0] && (a + b)[1..] == a[1..] + b;
      calc {
        Selected(a + b, checked);
        kept + Selected(a[1..] + b, checked);
        { SelectedAppend(a[1..], b, checked); }
        kept + (Selected(a[1..], checked) + Selected(b, checked));
        (kept + Selected(a[1..], checked)) + Selected(b, checked);
      }
    }
  }

  /** With unique identifiers, the identifier of the course at `k` is carried
      by no course before it and none after it. */
  lemma IdOnlyAt(courses: seq<Course>, k: nat)
    requires DistinctIds(courses) && k < |courses|
    ensures courses[k].id !in Ids(courses[..k])
    ensures courses[k].id !in Ids(courses[k + 1..])
  {
    var id := courses[k].id;
    var left, right := courses[..k], courses[k + 1..];
    IdsIndex(left, id);
    IdsIndex(right, id);
    forall i | 0 <= i < |left| ensures left[i].id != id {
      assert left[i] == courses[i];
    }
    forall i | 0 <= i < |right| ensures right[i].id != id {
      assert right[i] == courses[k + 1 + i];
    }
  }

  /** Ticking the box of a listed course inserts exactly that course into the
      selection, at its place in the listing. */
  lemma TickInserts(courses: seq<Course>, checked: set<string>, k: nat)
    returns (before: seq<Course>, after: seq<Course>)
    requires DistinctIds(courses)
    requires k < |courses| && courses[k].id !in checked
    ensures before == Selected(courses[..k], checked)
    ensures after == Selected(courses[k + 1..], checked)
    ensures Selected(courses, checked) == before + after
    ensures Selected(courses, checked + {courses[k].id}) == before + [courses[k]] + after
  {
    var c := courses[k];
    var more := checked + {c.id};
    var left, right := courses[..k], courses[k + 1..];
    assert courses == left + ([c] + right);
    IdOnlyAt(courses, k);
    SelectedIgnoresOthers(left, checked, c.id);
    SelectedIgnoresOthers(right, checked, c.id);
    SelectedAppend(left, [c] + right, checked);
    SelectedAppend(left, [c] + right, more);
    assert ([c] + right)[0] == c && ([c] + right)[1..] == right;
    before, after := Selected(left, checked), Selected(right, checked);
  }

  /** Fees of a concatenation are the concatenated fees. */
  lemma FeesOfAppend(a: seq<Course>, b: seq<Course>)
    ensures FeesOf(a + b) == FeesOf(a) + FeesOf(b)
  {
  }

  /** Every course of the list costs between R750 and R1500, as every
      catalogue course does. */
  predicate FeesInCatalogueRange(courses: seq<Course>) {
    forall i :: 0 <= i < |courses| ==> 750 <= courses[i].fee <= 1500
  }

  /** Ticking the box of a listed course adds exactly its fee to the
      subtotal and one to the count. */
  lemma TickAddsFee(courses: seq<Course>, checked: set<string>, k: nat)
    requires DistinctIds(courses)
    requires k < |courses| && courses[k].id !in checked
    ensures var before := FeesOf(Selected(courses, checked));
            var after := FeesOf(Selected(courses, checked + {courses[k].id}));
            |after| == |before| + 1 && Sum(after) == Sum(before) + courses[k].fee as real
  {
    var c := courses[k];
    var f := c.fee as real;
    var left, right := TickInserts(courses, checked, k);
    var fl, fr := FeesOf(left), FeesOf(right);
    FeesOfAppend(left, right);
    FeesOfAppend(left + [c], right);
    FeesOfAppend(left, [c]);
    assert FeesOf(left + [c] + right) == fl + [f] + fr;
    SumAppend(fl + [f], fr);
    SumAppend(fl, [f]);
    SumAppend(fl, fr);
    assert [f][..0] == [];
  }

  /** A selection from a list with catalogue-range fees has non-negative fees
      of at most R1500. */
  lemma SelectedFeesBounded(courses: seq<Course>, checked: set<string>)
    requires FeesInCatalogueRange(courses)
    ensures var fees := FeesOf(Selected(courses, checked));
            AllNonNegative(fees) && forall i :: 0 <= i < |fees| ==> fees[i] <= 1500.0
  {
    var sel := Selected(courses, checked);
    SelectedMembers(courses, checked);
    forall i | 0 <= i < |sel| ensures 0.0 <= FeesOf(sel)[i] <= 1500.0 {
      assert sel[i] in sel;
      var j :| 0 <= j < |courses| && courses[j] == sel[i];
    }
  }

  /** Ticking one more course of a list with unique identifiers and
      catalogue-range fees never lowers the quoted total, even where it moves
      the discount up a step: every such fee is more than a fifth of the
      largest one. */
  lemma TickRaisesTotalIn(courses: seq<Course>, checked: set<string>, k: nat)
    requires DistinctIds(courses) && FeesInCatalogueRange(courses)
    requires k < |courses| && courses[k].id !in checked
    ensures ComputeQuote(FeesOf(Selected(courses, checked + {courses[k].id}))).total
          > ComputeQuote(FeesOf(Selected(courses, checked))).total
  {
    var f := courses[k].fee as real;
    var before := FeesOf(Selected(courses, checked));
    TickAddsFee(courses, checked, k);
    SelectedFeesBounded(courses, checked);
    // The quote sees only the sum and the count, which match those of the
    // old fees with the new fee appended.
    assert (before + [f])[..|before|] == before;
    AddComparableFeeRaisesTotal(before, f, 1500.0);
  }

  /** Ticking one more course in the calculator never lowers the quoted total. */
  lemma TickRaisesTotal(checked: set<string>, k: nat)
    requires k < |CalculatorCourses| && CalculatorCourses[k].id !in checked
    ensures ComputeQuote(FeesOf(Selected(CalculatorCourses, checked + {CalculatorCourses[k].id}))).total
          > ComputeQuote(FeesOf(Selected(CalculatorCourses, checked))).total
  {
    CatalogueWellFormed();
    TickRaisesTotalIn(CalculatorCourses, checked, k);
  }

  /** In the calculator, the number of selected courses is the number of
      ticked catalogue identifiers. */
  lemma CalculatorSelectedCount(checked: set<string>)
    ensures |Selected(CalculatorCourses, checked)| == |checked * Ids(CalculatorCourses)|
  {
    CatalogueWellFormed();
    SelectedCount(CalculatorCourses, checked);
  }

  /** The form's submit handler: validate, and compute the quote of the
      ticked courses only when the form is valid. */
  method Submit(name: string, phone: string, email: string, checked: set<string>)
    returns (errors: map<string, string>, quote: Option<Breakdown>)
    ensures quote.Some? <==> errors == map[]
    ensures errors.Keys <= Fields
    ensures "name" in errors <==> AllWhitespace(name)
    ensures "name" in errors ==> errors["name"] == NameRequired
    ensures "phone" in errors <==> !IsTenDigits(RemoveWhitespace(phone))
    ensures "phone" in errors ==>
      errors["phone"] == if AllWhitespace(phone) then PhoneRequired else PhoneInvalid
    ensures "email" in errors <==> !EmailShapeByParts(Trim(email))
    ensures "email" in errors ==>
      errors["email"] == if AllWhitespace(email) then EmailRequired else EmailInvalid
    ensures "courses" in errors <==> checked * Ids(CalculatorCourses) == {}
    ensures "courses" in errors ==> errors["courses"] == CoursesRequired
    ensures quote.Some? ==>
      && quote.value == ComputeQuote(FeesOf(Selected(CalculatorCourses, checked)))
      && quote.value.rate == DiscountRate(|checked * Ids(CalculatorCourses)|)
  {
    var selected := Selected(CalculatorCourses, checked);
    CalculatorSelectedCount(checked);
    var isValid;
    isValid, errors := ValidateForm(name, phone, email, |selected|);
    if isValid {
      var fees := FeesOf(selected);
      quote := Some(ComputeQuote(fees));
    } else {
      quote := None;
    }
  }
}
