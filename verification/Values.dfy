/**
 The values a trigger manipulates, the heap of Go maps they refer to, and the two stores of a
 run: the frame of variables (one of the heap's maps) and the environment of declared names.
 */
module Values {
  import opened Text

  const TWO_TO_THE_64: int := 0x1_0000_0000_0000_0000
  const MIN_INT64: int := -0x8000_0000_0000_0000

  type int64 = i: int | MIN_INT64 <= i < MIN_INT64 + TWO_TO_THE_64

  /** 64-bit two's complement wrap-around. */
  function Wrap64(i: int): int64 {
    (i - MIN_INT64) % TWO_TO_THE_64 + MIN_INT64
  }

  /**
   A value as the variables map stores it. `MapV` is a reference: several slots can hold the same
   map. A double is only carried and compared. `OtherV` stands for the kinds the language cannot
   declare (timestamps, durations, types).
   */
  datatype Val =
    | IntV(i: int64)
    | BoolV(b: bool)
    | DoubleV(r: real)
    | StrV(s: string)
    | ListV(elems: seq<Val>)
    | MapV(ref: nat)
    | NullV
    | OtherV(tag: int)

  /** Declared types; `TAny` is CEL's dynamic type. */
  datatype Ty = TInt | TBool | TDouble | TString | TList | TMap | TAny

  function KindOf(v: Val): Option<Ty> {
    match v
    case IntV(_) => Some(TInt)
    case BoolV(_) => Some(TBool)
    case DoubleV(_) => Some(TDouble)
    case StrV(_) => Some(TString)
    case ListV(_) => Some(TList)
    case MapV(_) => Some(TMap)
    case NullV => None
    case OtherV(_) => None
  }

  type GoMap = map<string, Val>

  /** All maps of a run; a reference is a position, and allocation appends. */
  type Heap = seq<GoMap>

  function At(h: Heap, r: nat): GoMap {
    if r < |h| then h[r] else map[]
  }

  /** The in-place update of one slot. */
  function Put(h: Heap, r: nat, key: string, v: Val): (h': Heap)
    ensures |h'| == |h|
  {
    if r < |h| then h[r := h[r][key := v]] else h
  }

  /** The declared names with their types. */
  type Env = map<string, Ty>

  /** What a run does outside the interpreter. */
  datatype Effect =
    | Sent(destination: string, accepted: bool)
    | Created(file: string)

  /** `tick` counts the choices that Go or a service has made so far. */
  datatype State = State(heap: Heap, trace: seq<Effect>, tick: nat)

  function Alloc(s: State, m: GoMap): State {
    s.(heap := s.heap + [m])
  }

  /** `OutOfFuel` says that the nesting of user function calls went beyond the given bound. */
  datatype Outcome<+T> = Done(value: T) | Fail | OutOfFuel

  datatype Res<+T> = Res(s: State, out: Outcome<T>)
}
