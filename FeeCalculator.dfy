/**
 * The tuition fee estimator of the fees page: two fixed lookup tables, the
 * `calculateFee` decision (prompt, error or estimate) and the widget that
 * fills the course selector and re-renders the estimate on every change.
 */
module FeeCalculator {

  /** One course's charges per term, in whole Kenyan shillings. */
  datatype Fees = Fees(tuition: nat, reg: nat, library: nat, exam: nat)

  /** All charges of one term added up. */
  function PerTerm(f: Fees): nat {
    f.tuition + f.reg + f.library + f.exam
  }

  /** `courseFees`: course name to its per-term charges. */
  const CourseFees: map<string, Fees> := map[
    "Software Engineering" := Fees(80000, 5000, 3000, 4000),
    "Information Technology (IT)" := Fees(75000, 5000, 3000, 4000),
    "Computer Science" := Fees(85000, 5000, 3000, 4000),
    "Accounting" := Fees(65000, 4000, 2500, 3500),
    "Business Management" := Fees(60000, 4000, 2500, 3500),
    "Data Science" := Fees(90000, 5000, 3500, 4500)
  ]

  /** The keys of `courseFees` in the order the object literal declares them,
      which is the order `Object.keys` lists them in. */
  const CourseOrder: seq<string> := [
    "Software Engineering",
    "Information Technology (IT)",
    "Computer Science",
    "Accounting",
    "Business Management",
    "Data Science"
  ]

  /** `DURATION_MULTIPLIERS`: duration label to the number of terms it covers. */
  const DurationMultipliers: map<string, nat> := map["Term" := 1, "Year" := 3]

  /** What the calculator renders: the prompt to select both inputs, the
      missing-data error, or an estimate with the values the summary shows. */
  datatype Outcome =
    | Prompt
    | Error
    | Estimate(course: string, duration: string, multiplier: nat,
               tuition: nat, perTerm: nat, total: nat, plural: bool)

  /** A lookup that JavaScript treats as a hit: the key is present and, for the
      multiplier, the value is not the falsy 0. */
  predicate Priced(course: string, duration: string) {
    course in CourseFees && duration in DurationMultipliers && DurationMultipliers[duration] != 0
  }

  /** `calculateFee` on the two selector values. */
  function CalculateFee(course: string, duration: string): (r: Outcome)
    ensures r.Prompt? <==> course == "" || duration == ""
    ensures r.Error? <==> course != "" && duration != "" && !Priced(course, duration)
    ensures r.Estimate? ==>
      r.course == course && r.duration == duration
      && r.multiplier >= 1 && r.total == r.perTerm * r.multiplier && r.total >= r.perTerm
      && r.tuition <= r.perTerm && (r.plural <==> r.multiplier > 1)
  {
    if course == "" || duration == "" then Prompt
    else if !Priced(course, duration) then Error
    else
      var fees := CourseFees[course];
      var multiplier := DurationMultipliers[duration];
      var perTerm := PerTerm(fees);
      Estimate(course, duration, multiplier, fees.tuition, perTerm, perTerm * multiplier, multiplier > 1)
  }

  /** For every course and duration in the tables the estimate is the exact
      product of the summed charges and the multiplier, and only a multiplier
      above one gives the plural "terms". */
  lemma EstimateFromTables(course: string, duration: string)
    requires course in CourseFees && duration in DurationMultipliers
    ensures CalculateFee(course, duration)
      == Estimate(course, duration, DurationMultipliers[duration], CourseFees[course].tuition,
                  PerTerm(CourseFees[course]), PerTerm(CourseFees[course]) * DurationMultipliers[duration],
                  DurationMultipliers[duration] > 1)
  {
  }

  /** Computer Science for one term: 85000 + 5000 + 3000 + 4000. */
  lemma ComputerScienceTerm()
    ensures CalculateFee("Computer Science", "Term")
      == Estimate("Computer Science", "Term", 1, 85000, 97000, 97000, false)
  {
  }

  /** Business Management for a year: 70000 per term, three terms. */
  lemma BusinessManagementYear()
    ensures CalculateFee("Business Management", "Year")
      == Estimate("Business Management", "Year", 3, 60000, 70000, 210000, true)
  {
  }

  /** A year costs exactly three times a term, for every course. */
  lemma {:induction false} YearIsThreeTerms(course: string)
    requires course in CourseFees
    ensures CalculateFee(course, "Year").Estimate? && CalculateFee(course, "Term").Estimate?
    ensures CalculateFee(course, "Year").total == 3 * CalculateFee(course, "Term").total
  {
  }

  /** On an estimate the plural "terms" is shown exactly when the total is
      larger than one term's charges (every table entry charges something). */
  lemma {:induction false} PluralIffMoreThanOneTerm(course: string, duration: string)
    requires CalculateFee(course, duration).Estimate?
    ensures var r := CalculateFee(course, duration); r.perTerm > 0 && (r.plural <==> r.total > r.perTerm)
  {
  }

  /** The options the course selector is filled with are the table's keys,
      each once. */
  lemma CourseOptionsAreTheKeys()
    ensures (set i | 0 <= i < |CourseOrder| :: CourseOrder[i]) == CourseFees.Keys
    ensures forall i, j :: 0 <= i < j < |CourseOrder| ==> CourseOrder[i] != CourseOrder[j]
  {
    var listed := set i | 0 <= i < |CourseOrder| :: CourseOrder[i];
    assert CourseOrder[0] in listed && CourseOrder[1] in listed && CourseOrder[2] in listed;
    assert CourseOrder[3] in listed && CourseOrder[4] in listed && CourseOrder[5] in listed;
    assert CourseFees.Keys <= listed;
  }

  /** The error is out of reach of the populated selectors: any offered course
      with any tabled duration gives an estimate. */
  lemma {:induction false} OfferedCoursesAreEstimated(i: nat, duration: string)
    requires i < |CourseOrder| && duration in DurationMultipliers
    ensures CalculateFee(CourseOrder[i], duration).Estimate?
  {
  }

  /** The calculator widget: the course selector's options, the two selector
      values and what the output area currently shows. */
  class FeeWidget {
    var courseOptions: seq<string>
    var course: string
    var duration: string
    var output: Outcome

    /** A select's value is one of its options, or "" while it has none
        selected. */
    ghost predicate CourseOffered()
      reads this
    {
      course == "" || course in courseOptions
    }

    /** `initializeFeeCalculator`: appends one option per table key, in table
        order, to the options the page already has, then renders once. */
    constructor (pageOptions: seq<string>, course0: string, duration0: string)
      requires course0 == "" || course0 in pageOptions + CourseOrder
      ensures CourseOffered()
      ensures courseOptions == pageOptions + CourseOrder
      ensures course == course0 && duration == duration0
      ensures output == CalculateFee(course0, duration0)
    {
      var options := pageOptions;
      var i := 0;
      while i < |CourseOrder|
        invariant 0 <= i <= |CourseOrder|
        invariant options == pageOptions + CourseOrder[..i]
      {
        options := options + [CourseOrder[i]];
        i := i + 1;
      }
      courseOptions := options;
      course, duration := course0, duration0;
      output := CalculateFee(course0, duration0);
    }

    /** A `change` event on the course selector. */
    method OnCourseChange(value: string)
      requires value == "" || value in courseOptions
      modifies this
      ensures CourseOffered()
      ensures course == value && duration == old(duration) && courseOptions == old(courseOptions)
      ensures output == CalculateFee(value, duration)
    {
      course := value;
      output := CalculateFee(course, duration);
    }

    /** A `change` event on the duration selector. */
    method OnDurationChange(value: string)
      requires CourseOffered()
      modifies this
      ensures CourseOffered()
      ensures duration == value && course == old(course) && courseOptions == old(courseOptions)
      ensures output == CalculateFee(course, value)
    {
      duration := value;
      output := CalculateFee(course, duration);
    }
  }
}
