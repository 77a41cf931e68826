/** TaskPriority and its extension methods: names, descriptions and the ordered list of priorities. */
module TaskPriorities {

  /** The priorities of a task. */
  datatype TaskPriority = VeryLow | Low | Medium | High | Critical

  /** The underlying value of each priority (VeryLow = 1 ... Critical = 5). */
  function Value(p: TaskPriority): (v: int)
    ensures 1 <= v <= 5
  {
    match p
    case VeryLow => 1
    case Low => 2
    case Medium => 3
    case High => 4
    case Critical => 5
  }

  /** The priority a new task gets when none is given. */
  const DefaultPriority: TaskPriority := Medium

  /** The human-readable name of a priority. */
  function GetDisplayName(p: TaskPriority): string
  {
    match p
    case VeryLow => "Very Low"
    case Low => "Low"
    case Medium => "Medium"
    case High => "High"
    case Critical => "Critical"
  }

  /** The long description of a priority. */
  function GetDescription(p: TaskPriority): (r: string)
    ensures |r| > 0
  {
    match p
    case VeryLow => "Задача с очень низким приоритетом, может быть выполнена в последнюю очередь"
    case Low => "Задача с низким приоритетом, не требует срочного выполнения"
    case Medium => "Задача со средним приоритетом, стандартное время выполнения"
    case High => "Задача с высоким приоритетом, требует быстрого выполнения"
    case Critical => "Критическая задача, требует немедленного внимания"
  }

  /** All priorities from the most to the least important: every priority occurs, and the
      underlying values strictly decrease, so none occurs twice. */
  function GetPriorities(): (r: seq<TaskPriority>)
    ensures |r| == 5
    ensures forall p :: p in r
    ensures forall p :: r[5 - Value(p)] == p
    ensures forall i, j :: 0 <= i < j < |r| ==> Value(r[i]) > Value(r[j])
  {
    PositionByValue([Critical, High, Medium, Low, VeryLow]);
    [Critical, High, Medium, Low, VeryLow]
  }

  /** In the list ordered by decreasing value, a priority sits at index 5 - Value(p). */
  lemma PositionByValue(r: seq<TaskPriority>)
    requires r == [Critical, High, Medium, Low, VeryLow]
    ensures forall p :: r[5 - Value(p)] == p
    ensures forall p :: p in r
  {
    forall p ensures r[5 - Value(p)] == p && p in r {
      match p
      case VeryLow =>
      case Low =>
      case Medium =>
      case High =>
      case Critical =>
    }
  }

  /** Each priority occurs exactly once in GetPriorities: at index 5 - Value(p) and nowhere else. */
  lemma PrioritiesOnceEach(p: TaskPriority, i: int)
    requires 0 <= i < |GetPriorities()|
    ensures GetPriorities()[i] == p <==> i == 5 - Value(p)
  {
  }

  /** Distinct priorities have distinct display names, and the value order is a total order. */
  lemma DisplayNamesDistinct(p: TaskPriority, q: TaskPriority)
    ensures GetDisplayName(p) == GetDisplayName(q) <==> p == q
    ensures Value(p) == Value(q) <==> p == q
  {
  }
}
