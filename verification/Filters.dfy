/** Typed filters and their conversion to and from the native records. */
module Filters {
  import opened NativeTypes
  import opened Wrappers
  import opened FilterBuffer

  datatype FilterTarget =
    | ExecutablePath(path: seq<Unit>)
    | ProcessIdentity(pid: U32, creationTime: U64)
    | ServiceName(name: seq<Unit>)

  datatype FilterAction = PreventRestart | PreventShutdown

  datatype Filter = Filter(target: FilterTarget, action: FilterAction)

  const INVALID_NATIVE_ID: U32 := 0xFFFF_FFFF

  /** What the constructors guarantee. `absolute` stands for the platform's test of an absolute path. */
  predicate ValidTarget(absolute: seq<Unit> -> bool, target: FilterTarget) {
    match target
    case ExecutablePath(path) => path != [] && 0 !in path && absolute(path)
    case ProcessIdentity(pid, _) => pid != 0 && pid != INVALID_NATIVE_ID
    case ServiceName(name) => name != [] && 0 !in name
  }

  predicate AllValid(absolute: seq<Unit> -> bool, filters: seq<Filter>) {
    forall i | 0 <= i < |filters| :: ValidTarget(absolute, filters[i].target)
  }

  function RawFilterTarget(target: FilterTarget): RawTarget {
    match target
    case ExecutablePath(path) => Executable(path)
    case ProcessIdentity(pid, creationTime) => Process(UniqueProcess(pid, creationTime))
    case ServiceName(name) => Service(name)
  }

  function RawFilterAction(action: FilterAction): I32 {
    match action case PreventRestart => 1 case PreventShutdown => 2
  }

  function ToRaw(filters: seq<Filter>): seq<RawFilter> {
    if filters == [] then [] else
    [RawFilter(RawFilterTarget(filters[0].target), RawFilterAction(filters[0].action))] + ToRaw(filters[1..])
  }

  function FilterFromRaw(absolute: seq<Unit> -> bool, raw: RawFilter): SysResult<Filter> {
    var target: SysResult<FilterTarget> :=
      match raw.target
      case Executable(path) =>
        if path == [] || 0 in path || !absolute(path) then Err(MalformedOutput) else Ok(ExecutablePath(path))
      case Process(process) =>
        if process.pid == 0 || process.pid == INVALID_NATIVE_ID then Err(MalformedOutput)
        else Ok(ProcessIdentity(process.pid, process.startTime))
      case Service(name) =>
        if name == [] || 0 in name then Err(MalformedOutput) else Ok(ServiceName(name));
    match target
    case Err(e) => Err(e)
    case Ok(t) =>
      if raw.action == 1 then Ok(Filter(t, PreventRestart))
      else if raw.action == 2 then Ok(Filter(t, PreventShutdown))
      else Err(MalformedOutput)
  }

  /** The collected conversion: the first failure wins. */
  function FiltersFromRaw(absolute: seq<Unit> -> bool, raw: seq<RawFilter>): SysResult<seq<Filter>> {
    if raw == [] then Ok([]) else
    match FilterFromRaw(absolute, raw[0])
    case Err(e) => Err(e)
    case Ok(filter) =>
      match FiltersFromRaw(absolute, raw[1..])
      case Err(e) => Err(e)
      case Ok(rest) => Ok([filter] + rest)
  }

  /** RmNoRestart is 1 and RmNoShutdown is 2; the target is the same in native form. */
  lemma FilterFromRawExact(absolute: seq<Unit> -> bool, raw: RawFilter, filter: Filter)
    ensures FilterFromRaw(absolute, raw) == Ok(filter) <==>
            && ValidTarget(absolute, filter.target)
            && raw == RawFilter(RawFilterTarget(filter.target), RawFilterAction(filter.action))
    ensures FilterFromRaw(absolute, raw) == Ok(filter) ==>
            && raw.action == (if filter.action == PreventRestart then 1 else 2)
            && (match raw.target
                case Executable(path) => filter.target == ExecutablePath(path)
                case Process(process) => filter.target == ProcessIdentity(process.pid, process.startTime)
                case Service(name) => filter.target == ServiceName(name))
  {
    assert raw == RawFilter(raw.target, raw.action) && filter == Filter(filter.target, filter.action);
  }

  /** The native records of a list of valid filters are accepted as that list, and nothing else is. */
  lemma {:induction false} FromRawExact(absolute: seq<Unit> -> bool, raw: seq<RawFilter>, filters: seq<Filter>)
    ensures FiltersFromRaw(absolute, raw) == Ok(filters) <==> raw == ToRaw(filters) && AllValid(absolute, filters)
    decreases |raw|
  {
    if raw != [] && filters != [] {
      FilterFromRawExact(absolute, raw[0], filters[0]);
      FromRawExact(absolute, raw[1..], filters[1..]);
      assert filters == [filters[0]] + filters[1..];
      assert AllValid(absolute, filters) <==>
             ValidTarget(absolute, filters[0].target) && AllValid(absolute, filters[1..]) by {
        if ValidTarget(absolute, filters[0].target) && AllValid(absolute, filters[1..]) {
          forall i | 0 <= i < |filters|
            ensures ValidTarget(absolute, filters[i].target)
          {
            if i > 0 { assert filters[1..][i - 1] == filters[i]; }
          }
        }
      }
      assert raw == [raw[0]] + raw[1..];
      assert ToRaw(filters)[1..] == ToRaw(filters[1..]);
    }
  }

  lemma {:induction false} RawIsNulFree(absolute: seq<Unit> -> bool, filters: seq<Filter>, i: nat)
    requires AllValid(absolute, filters) && i < |ToRaw(filters)|
    ensures match ToRaw(filters)[i].target
            case Executable(path) => 0 !in path
            case Process(_) => true
            case Service(name) => 0 !in name
    decreases |filters|
  {
    if i > 0 {
      RawIsNulFree(absolute, filters[1..], i - 1);
    }
  }
}
