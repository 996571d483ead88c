/** The weekly training schedule the student forms edit and the clients sheet stores as text. */
module Weekdays {

  datatype Weekday = Monday | Tuesday | Wednesday | Thursday | Friday | Saturday | Sunday

  /**
   * The forms' `schedule` object: one check box per day. Its keys are declared Monday first, so
   * `Object.entries` visits them in week order.
   */
  datatype WeekSchedule = WeekSchedule(
    monday: bool, tuesday: bool, wednesday: bool, thursday: bool,
    friday: bool, saturday: bool, sunday: bool)
  {
    function Get(d: Weekday): bool {
      match d
      case Monday => monday
      case Tuesday => tuesday
      case Wednesday => wednesday
      case Thursday => thursday
      case Friday => friday
      case Saturday => saturday
      case Sunday => sunday
    }

    /** `{ ...schedule, [d]: b }`. */
    function With(d: Weekday, b: bool): (s: WeekSchedule)
      ensures s.Get(d) == b
      ensures forall e :: e != d ==> s.Get(e) == Get(e)
    {
      match d
      case Monday => this.(monday := b)
      case Tuesday => this.(tuesday := b)
      case Wednesday => this.(wednesday := b)
      case Thursday => this.(thursday := b)
      case Friday => this.(friday := b)
      case Saturday => this.(saturday := b)
      case Sunday => this.(sunday := b)
    }

    predicate AnySelected() {
      monday || tuesday || wednesday || thursday || friday || saturday || sunday
    }
  }

  /** Some day is ticked exactly when some day's check box holds. */
  lemma AnySelectedSpec(s: WeekSchedule)
    ensures s.AnySelected() <==> exists d :: s.Get(d)
  {
    if s.AnySelected() {
      if s.monday { assert s.Get(Monday); }
      else if s.tuesday { assert s.Get(Tuesday); }
      else if s.wednesday { assert s.Get(Wednesday); }
      else if s.thursday { assert s.Get(Thursday); }
      else if s.friday { assert s.Get(Friday); }
      else if s.saturday { assert s.Get(Saturday); }
      else { assert s.Get(Sunday); }
    }
  }

  /** Two schedules with the same check boxes are equal. */
  lemma ScheduleExt(a: WeekSchedule, b: WeekSchedule)
    requires forall d :: a.Get(d) == b.Get(d)
    ensures a == b
  {
    assert a.Get(Monday) == b.Get(Monday) && a.Get(Tuesday) == b.Get(Tuesday);
    assert a.Get(Wednesday) == b.Get(Wednesday) && a.Get(Thursday) == b.Get(Thursday);
    assert a.Get(Friday) == b.Get(Friday) && a.Get(Saturday) == b.Get(Saturday);
    assert a.Get(Sunday) == b.Get(Sunday);
  }

  /** The form's initial schedule: no day ticked. */
  const NoDays := WeekSchedule(false, false, false, false, false, false, false)
}
