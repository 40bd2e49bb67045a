/**
 Trigger definitions as the YAML decoder delivers them, and the expressions inside them.
 */
module Syntax {
  import opened Text
  import opened Values

  datatype Const = CInt(i: int64) | CBool(b: bool) | CDouble(r: real) | CString(s: string) | CNull

  datatype BinOp = Add | Sub | Leq | Eq

  datatype Expr =
    | Lit(c: Const)
    | Path(root: string, fields: seq<string>)
    | Not(arg: Expr)
    | And(left: Expr, right: Expr)
    | Bin(op: BinOp, left: Expr, right: Expr)
    | KabaneroConfig
    | Call(callee: Expr, param: Expr)
    | Filter(coll: Expr, pred: Source)
    | SendEvent(destination: Expr, message: Expr, context: Expr)
    | ApplyResources(dir: Expr, variables: Expr)

  /** The text of an expression: empty, unparsable, or with a parse tree. */
  datatype Source = EmptyText | Malformed | Text(e: Expr)

  /** `YString` and `YPrimitive` are both turned into expression text; `YOther` is null or a date. */
  datatype Yaml =
    | YString(text: Source)
    | YPrimitive(text: Source)
    | YList(elems: seq<Yaml>)
    | YObject(fields: seq<Field>)
    | YOther

  datatype Field = Field(key: Key, value: Yaml)

  datatype Key = Name(name: string) | NonString

  const IF := "if"
  const SWITCH := "switch"
  const DEFAULT := "default"
  const BODY := "body"

  predicate IsKeyword(name: string) {
    name == IF || name == SWITCH || name == DEFAULT || name == BODY
  }

  /** How many keys are keywords, and which ones occur. */
  datatype Keywords = Keywords(count: nat, hasIf: bool, hasSwitch: bool, hasDefault: bool, hasBody: bool)

  function AddKey(k: Keywords, key: Key): Keywords {
    if key.NonString? || !IsKeyword(key.name) then k
    else
      Keywords(k.count + 1, k.hasIf || key.name == IF, k.hasSwitch || key.name == SWITCH,
               k.hasDefault || key.name == DEFAULT, k.hasBody || key.name == BODY)
  }

  function CountKeywords(fields: seq<Field>): Keywords {
    if fields == [] then Keywords(0, false, false, false, false)
    else AddKey(CountKeywords(fields[..|fields| - 1]), fields[|fields| - 1].key)
  }

  /** The lookup object[key]. */
  function Get(fields: seq<Field>, key: string): (r: Option<Yaml>)
    ensures r.Some? ==> exists i :: 0 <= i < |fields| && fields[i] == Field(Name(key), r.value)
    ensures r.Some? ==> (fields decreases to r.value)
    ensures r.None? ==> forall i | 0 <= i < |fields| :: fields[i].key != Name(key)
  {
    if fields == [] then None
    else if fields[0].key == Name(key) then
      assert fields[0] == Field(Name(key), fields[0].value);
      assert fields decreases to fields[0];
      assert fields[0] decreases to fields[0].value;
      Some(fields[0].value)
    else
      var rest := Get(fields[1..], key);
      assert forall i | 0 <= i < |fields| - 1 :: fields[1..][i] == fields[i + 1];
      rest
  }

  /** A declared function; a variable name is None when it is missing or not a string. */
  datatype FuncDef = FuncDef(input: Option<string>, output: Option<string>, body: Yaml)

  predicate Callable(fd: FuncDef) {
    fd.input.Some? && fd.output.Some? && fd.body.YList?
  }

  /** What `trigger[INPUT]` and `trigger[BODY]` hold, when of the right type. */
  datatype Trigger = Trigger(input: Option<string>, body: Option<seq<Yaml>>)

  /** The value of `dryrun` in one settings section. */
  datatype DryRunSetting = Unset | NotBool | Flag(b: bool)

  function IsDryRun(settings: seq<DryRunSetting>): bool {
    if settings == [] then false
    else if settings[0].Flag? then settings[0].b
    else IsDryRun(settings[1..])
  }

  /** The first boolean setting is true. */
  ghost predicate DryRunSet(settings: seq<DryRunSetting>) {
    exists i :: 0 <= i < |settings| && settings[i] == Flag(true) && forall j | 0 <= j < i :: !settings[j].Flag?
  }

  lemma {:induction false} DryRunExactly(settings: seq<DryRunSetting>)
    ensures IsDryRun(settings) <==> DryRunSet(settings)
    decreases |settings|
  {
    if settings != [] && !settings[0].Flag? {
      DryRunExactly(settings[1..]);
      if DryRunSet(settings[1..]) {
        var i :| 0 <= i < |settings| - 1 && settings[1..][i] == Flag(true)
                 && forall j | 0 <= j < i :: !settings[1..][j].Flag?;
        assert settings[i + 1] == Flag(true);
        assert forall j | 0 < j < i + 1 :: settings[j] == settings[1..][j - 1];
      }
      if DryRunSet(settings) {
        var i :| 0 <= i < |settings| && settings[i] == Flag(true) && forall j | 0 <= j < i :: !settings[j].Flag?;
        assert settings[1..][i - 1] == Flag(true);
        assert forall j | 0 <= j < i - 1 :: settings[1..][j] == settings[j + 1];
      }
    }
  }

  /**
   Everything a run does not change. `dirs` gives the template files of each directory that the
   path check and the file search accept. `redeclare` says whether the CEL environment accepts the
   declaration of a name that is already declared. `visit(t)` and `choice(t)` are the t-th choices
   made by Go's map iteration and by the outside services.
   */
  datatype Ctx = Ctx(
    functions: map<string, FuncDef>,
    triggers: map<string, seq<Trigger>>,
    settings: seq<DryRunSetting>,
    dirs: map<string, seq<string>>,
    namespace_: string,
    redeclare: bool,
    visit: nat -> seq<nat>,
    choice: nat -> nat)
}
