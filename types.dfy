/**
 * The shared vocabulary of the household scheduler: roles and hierarchy
 * modes with their permission rules, the recurrence and period enums with
 * their string forms, the task record, and the per-user task status with its
 * target predicates.
 */
module Types {
  import opened Wrappers
  import opened Text
  import opened Dates

  type Uuid = int

  // ---------------------------------------------------------------------
  // Roles and hierarchy modes

  datatype Role = Owner | Admin | Member
  {
    function AsStr(): string
    {
      match this
      case Owner => "owner"
      case Admin => "admin"
      case Member => "member"
    }

    predicate CanManageMembers() { this == Owner || this == Admin }
    predicate CanManageTasks() { this == Owner || this == Admin }
    predicate CanManageRewards() { this == Owner || this == Admin }
    predicate CanManageRoles() { this == Owner }
    predicate CanDeleteHousehold() { this == Owner }
  }

  /** Role's FromStr: case-insensitive match of the three names. */
  function ParseRole(s: string): (r: Option<Role>)
    ensures forall x: Role :: r == Some(x) <==> ToLower(s) == x.AsStr()
  {
    RoleNamed(ToLower(s))
  }

  /** The role a lower-case name stands for. */
  function RoleNamed(l: string): (r: Option<Role>)
    ensures forall x: Role :: r == Some(x) <==> l == x.AsStr()
  {
    if l == "owner" then Some(Owner)
    else if l == "admin" then Some(Admin)
    else if l == "member" then Some(Member)
    else None
  }

  lemma RoleRoundTrip(x: Role)
    ensures ParseRole(x.AsStr()) == Some(x)
  {
    var s := x.AsStr();
    assert IsLower(s);
    ToLowerOfLower(s);
  }

  /**
   * The permission table: Owner holds all five permissions, Admin the three
   * management ones but neither role management nor household deletion,
   * Member none.
   */
  lemma RolePermissions(r: Role)
    ensures r.CanManageMembers() && r.CanManageTasks() && r.CanManageRewards() <==> r != Member
    ensures r.CanManageRoles() <==> r == Owner
    ensures r.CanDeleteHousehold() <==> r == Owner
    ensures r.CanManageRoles() ==> r.CanManageMembers()
    ensures r == Member ==> !r.CanManageMembers() && !r.CanManageTasks() && !r.CanManageRewards()
  {
  }

  datatype HierarchyType = Equals | Organized | Hierarchy
  {
    function AsStr(): string
    {
      match this
      case Equals => "equals"
      case Organized => "organized"
      case Hierarchy => "hierarchy"
    }

    /** Who may manage tasks, rewards and punishments under this mode. */
    predicate CanManage(role: Role)
    {
      match this
      case Equals => true
      case Organized | Hierarchy => role.CanManageTasks()
    }

    /** Who may be assigned a task under this mode. */
    predicate CanBeAssigned(role: Role)
    {
      match this
      case Equals | Organized => true
      case Hierarchy => role == Member
    }
  }

  const DefaultHierarchy: HierarchyType := Organized

  function ParseHierarchy(s: string): (r: Option<HierarchyType>)
    ensures forall x: HierarchyType :: r == Some(x) <==> ToLower(s) == x.AsStr()
  {
    HierarchyNamed(ToLower(s))
  }

  /** The hierarchy type a lower-case name stands for. */
  function HierarchyNamed(l: string): (r: Option<HierarchyType>)
    ensures forall x: HierarchyType :: r == Some(x) <==> l == x.AsStr()
  {
    if l == "equals" then Some(Equals)
    else if l == "organized" then Some(Organized)
    else if l == "hierarchy" then Some(Hierarchy)
    else None
  }

  lemma HierarchyRoundTrip(x: HierarchyType)
    ensures ParseHierarchy(x.AsStr()) == Some(x)
  {
    var s := x.AsStr();
    assert IsLower(s);
    ToLowerOfLower(s);
  }

  /**
   * Equals lets every role manage; Organized and Hierarchy only Owner and
   * Admin. Only Hierarchy restricts assignment, to Members alone.
   */
  lemma HierarchyRules(h: HierarchyType, role: Role)
    ensures h == Equals ==> h.CanManage(role)
    ensures h != Equals ==> (h.CanManage(role) <==> role != Member)
    ensures h.CanBeAssigned(role) <==> (h != Hierarchy || role == Member)
    ensures h == Hierarchy ==> (h.CanManage(role) <==> !h.CanBeAssigned(role))
  {
  }

  // ---------------------------------------------------------------------
  // Recurrence

  datatype RecurrenceType = Daily | Weekly | Monthly | Weekdays | Custom | OneTime
  {
    function AsStr(): string
    {
      match this
      case Daily => "daily"
      case Weekly => "weekly"
      case Monthly => "monthly"
      case Weekdays => "weekdays"
      case Custom => "custom"
      case OneTime => "onetime"
    }
  }

  /** RecurrenceType's FromStr; "none" is kept as an alias of OneTime. */
  function ParseRecurrence(s: string): (r: Option<RecurrenceType>)
    ensures forall x: RecurrenceType :: r == Some(x) <==>
      (ToLower(s) == x.AsStr() || (x == OneTime && ToLower(s) == "none"))
  {
    RecurrenceNamed(ToLower(s))
  }

  /** The recurrence type a lower-case name stands for. */
  function RecurrenceNamed(l: string): (r: Option<RecurrenceType>)
    ensures forall x: RecurrenceType :: r == Some(x) <==>
      (l == x.AsStr() || (x == OneTime && l == "none"))
  {
    if l == "daily" then Some(Daily)
    else if l == "weekly" then Some(Weekly)
    else if l == "monthly" then Some(Monthly)
    else if l == "weekdays" then Some(Weekdays)
    else if l == "custom" then Some(Custom)
    else if l == "onetime" || l == "none" then Some(OneTime)
    else None
  }

  lemma RecurrenceRoundTrip(x: RecurrenceType)
    ensures ParseRecurrence(x.AsStr()) == Some(x)
  {
    var s := x.AsStr();
    assert IsLower(s);
    ToLowerOfLower(s);
  }

  /** Parsing ignores case: a string parses like its lower-cased form. */
  lemma RecurrenceCaseInsensitive(s: string)
    ensures ParseRecurrence(s) == ParseRecurrence(ToLower(s))
  {
    ToLowerIdempotent(s);
  }

  /** The recurrence parameter; weekday numbers count Sunday = 0 … Saturday = 6. */
  datatype RecurrenceValue =
    | WeekDayValue(weekday: int)
    | MonthDayValue(monthDay: int)
    | WeekdaysValue(weekdays: seq<int>)
    | CustomDatesValue(dates: seq<Date>)
    | NoValue

  /** A byte, the range of Rust's u8. */
  predicate IsByte(n: int) { 0 <= n <= 255 }

  /** What the Rust types guarantee of a recurrence value: u8 numbers, real dates. */
  predicate RecurrenceValueValid(v: RecurrenceValue)
  {
    match v
    case WeekDayValue(d) => IsByte(d)
    case MonthDayValue(d) => IsByte(d)
    case WeekdaysValue(ds) => forall i :: 0 <= i < |ds| ==> IsByte(ds[i])
    case CustomDatesValue(ds) => forall i :: 0 <= i < |ds| ==> Valid(ds[i])
    case NoValue => true
  }

  /** The span over which completions are counted; AllTime is the "none" period. */
  datatype TimePeriod = Day | Week | Month | Year | AllTime
  {
    function AsStr(): string
    {
      match this
      case Day => "day"
      case Week => "week"
      case Month => "month"
      case Year => "year"
      case AllTime => "none"
    }
  }

  function ParseTimePeriod(s: string): (r: Option<TimePeriod>)
    ensures forall x: TimePeriod :: r == Some(x) <==> ToLower(s) == x.AsStr()
  {
    TimePeriodNamed(ToLower(s))
  }

  /** The time period a lower-case name stands for. */
  function TimePeriodNamed(l: string): (r: Option<TimePeriod>)
    ensures forall x: TimePeriod :: r == Some(x) <==> l == x.AsStr()
  {
    if l == "day" then Some(Day)
    else if l == "week" then Some(Week)
    else if l == "month" then Some(Month)
    else if l == "year" then Some(Year)
    else if l == "none" then Some(AllTime)
    else None
  }

  lemma TimePeriodRoundTrip(x: TimePeriod)
    ensures ParseTimePeriod(x.AsStr()) == Some(x)
  {
    var s := x.AsStr();
    assert IsLower(s);
    ToLowerOfLower(s);
  }

  datatype HabitType = Good | Bad
  {
    function AsStr(): string
    {
      match this
      case Good => "good"
      case Bad => "bad"
    }

    /** Bad habits invert consequences: completing is punished, missing rewarded. */
    predicate IsInverted() { this == Bad }
  }

  const DefaultHabit: HabitType := Good

  function ParseHabit(s: string): (r: Option<HabitType>)
    ensures forall x: HabitType :: r == Some(x) <==> ToLower(s) == x.AsStr()
  {
    HabitNamed(ToLower(s))
  }

  /** The habit type a lower-case name stands for. */
  function HabitNamed(l: string): (r: Option<HabitType>)
    ensures forall x: HabitType :: r == Some(x) <==> l == x.AsStr()
  {
    if l == "good" then Some(Good)
    else if l == "bad" then Some(Bad)
    else None
  }

  lemma HabitRoundTrip(x: HabitType)
    ensures ParseHabit(x.AsStr()) == Some(x)
  {
    var s := x.AsStr();
    assert IsLower(s);
    ToLowerOfLower(s);
  }

  lemma HabitCaseInsensitive(s: string)
    ensures ParseHabit(s) == ParseHabit(ToLower(s))
  {
    ToLowerIdempotent(s);
  }

  /** The outcome recorded for a finished period. */
  datatype PeriodStatus = Completed | Failed | Skipped
  {
    function AsStr(): string
    {
      match this
      case Completed => "completed"
      case Failed => "failed"
      case Skipped => "skipped"
    }
  }

  function ParsePeriodStatus(s: string): (r: Option<PeriodStatus>)
    ensures forall x: PeriodStatus :: r == Some(x) <==> ToLower(s) == x.AsStr()
  {
    PeriodStatusNamed(ToLower(s))
  }

  /** The period status a lower-case name stands for. */
  function PeriodStatusNamed(l: string): (r: Option<PeriodStatus>)
    ensures forall x: PeriodStatus :: r == Some(x) <==> l == x.AsStr()
  {
    if l == "completed" then Some(Completed)
    else if l == "failed" then Some(Failed)
    else if l == "skipped" then Some(Skipped)
    else None
  }

  lemma PeriodStatusRoundTrip(x: PeriodStatus)
    ensures ParsePeriodStatus(x.AsStr()) == Some(x)
  {
    var s := x.AsStr();
    assert IsLower(s);
    ToLowerOfLower(s);
  }

  lemma PeriodStatusCaseInsensitive(s: string)
    ensures ParsePeriodStatus(s) == ParsePeriodStatus(ToLower(s))
  {
    ToLowerIdempotent(s);
  }

  /** The Kelvin sign lower-cases to k, so it spells these names as the Latin letter does. */
  lemma KelvinWeekly()
    ensures ParseRecurrence("WEE\U{212A}LY") == Some(Weekly)
  {
    assert ToLower("WEE\U{212A}LY") == "weekly";
  }

  lemma KelvinWeek()
    ensures ParseTimePeriod("WEE\U{212A}") == Some(Week)
  {
    assert ToLower("WEE\U{212A}") == "week";
  }

  lemma KelvinSkipped()
    ensures ParsePeriodStatus("S\U{212A}IPPED") == Some(Skipped)
  {
    assert ToLower("S\U{212A}IPPED") == "skipped";
  }

  datatype CompletionStatus = Approved | Pending

  datatype SuggestionStatus = Suggested | Accepted | Denied

  // ---------------------------------------------------------------------
  // Tasks

  /**
   * A task row. createdAt is the creation instant; its UTC day supplies the
   * default day of month of a Monthly task.
   */
  datatype Task = Task(
    id: Uuid,
    householdId: Uuid,
    title: string,
    description: string,
    recurrenceType: RecurrenceType,
    recurrenceValue: Option<RecurrenceValue>,
    assignedUserId: Option<Uuid>,
    targetCount: int,
    timePeriod: Option<TimePeriod>,
    allowExceedTarget: bool,
    requiresReview: bool,
    pointsReward: Option<int>,
    pointsPenalty: Option<int>,
    dueTime: Option<string>,
    habitType: HabitType,
    categoryId: Option<Uuid>,
    archived: bool,
    paused: bool,
    suggestion: Option<SuggestionStatus>,
    suggestedBy: Option<Uuid>,
    createdAt: Instant,
    updatedAt: Instant)

  /** What the Rust field types guarantee of a task. */
  predicate TaskValid(t: Task)
  {
    t.recurrenceValue.Some? ==> RecurrenceValueValid(t.recurrenceValue.value)
  }

  /** A task together with the viewing user's completion count for the current period. */
  datatype TaskWithStatus = TaskWithStatus(task: Task, completionsToday: int, isUserAssigned: bool)
  {
    /** A target of 0 marks a free-form task, whose target is never met. */
    predicate IsTargetMet()
    {
      task.targetCount > 0 && completionsToday >= task.targetCount
    }

    function Remaining(): (n: int)
      ensures n >= 0
      ensures n == 0 <==> completionsToday >= task.targetCount
      ensures n > 0 ==> completionsToday + n == task.targetCount
    {
      if task.targetCount - completionsToday > 0 then task.targetCount - completionsToday else 0
    }

    predicate CanComplete()
    {
      isUserAssigned && (task.allowExceedTarget || !IsTargetMet())
    }
  }

  /**
   * The status rules: a zero target is never met; a positive one is met once
   * the count reaches it, and nothing remains exactly then; completing is
   * possible only for an assigned user, and past a met target only when
   * exceeding is allowed.
   */
  lemma TargetRules(s: TaskWithStatus)
    ensures s.task.targetCount == 0 ==> !s.IsTargetMet()
    ensures s.task.targetCount > 0 ==> (s.IsTargetMet() <==> s.Remaining() == 0)
    ensures !s.isUserAssigned ==> !s.CanComplete()
    ensures s.isUserAssigned && !s.IsTargetMet() ==> s.CanComplete()
    ensures s.IsTargetMet() ==> (s.CanComplete() <==> s.isUserAssigned && s.task.allowExceedTarget)
  {
  }
}
