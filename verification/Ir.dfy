/** The part of LLVM's intermediate representation that the backend generates, with the calls
    into the PHP run-time library as instructions, and how it runs. */
module Ir {
  import opened Results
  import opened Doubles
  import opened Ast
  import opened Semantics

  // ---------- Instructions ----------

  datatype Type = VariantPtr | I1 | I64 | DoubleTy | StringPtr

  datatype Operand =
    | Reg(id: nat, ty: Type)
    | ConstInt(i: int)
    | ConstBool(b: bool)
    | ConstDouble(d: Double)
    | ConstString(s: string)

  function TypeOfOperand(o: Operand): Type {
    match o
    case Reg(_, ty) => ty
    case ConstInt(_) => I64
    case ConstBool(_) => I1
    case ConstDouble(_) => DoubleTy
    case ConstString(_) => StringPtr
  }

  predicate IsVariantOperand(o: Operand) {
    TypeOfOperand(o).VariantPtr?
  }

  predicate IsIntegerOperand(o: Operand) {
    TypeOfOperand(o).I1? || TypeOfOperand(o).I64?
  }

  /** An `alloca` that receives the result of a call, that call, and the load of the result
      count as one instruction. */
  datatype Instr =
    | CallPrint(v: Operand)                                                // print_*
    | CallLookup(dst: nat, name: string)                                   // get_value_from_hashtable
    | CallAttribute(dst: nat, base: Operand, name: string)                 // get_attribute
    | CallWrap(dst: nat, v: Operand)                                       // set_zval_*
    | CallCompare(ok: nat, dst: nat, cop: ComparisonOp, l: Operand, r: Operand)  // compare_variant
    | CallBinary(ok: nat, dst: nat, bop: BinaryOp, l: Operand, r: Operand) // binary_variant_operation
    | CallUnary(ok: nat, dst: nat, uop: UnaryOp, v: Operand)               // unary_variant_operation
    | CallMethod(dst: nat, name: string, args: seq<Operand>)               // do_method_call
    | CallLoopInit(table: nat, pos: nat, v: Operand)                       // forloop_init
    | CallLoopGet(table: nat, pos: nat, key: Option<nat>, val: Option<nat>) // forloop_getvalues
    | CallLoopNext(dst: nat, table: nat, pos: nat)                         // forloop_next
    | CallDestruct(v: Operand)                                             // destruct_zval
    | NotNull(dst: nat, ptr: nat)
    | SIToFP(dst: nat, v: Operand)
    | IntOp(dst: nat, bop: BinaryOp, l: Operand, r: Operand)
    | FloatOp(dst: nat, bop: BinaryOp, l: Operand, r: Operand)
    | ICmp(dst: nat, cop: ComparisonOp, l: Operand, r: Operand)
    | FCmp(dst: nat, cop: ComparisonOp, l: Operand, r: Operand)
    | Logic(dst: nat, cop: ComparisonOp, l: Operand, r: Operand)
    | Neg(dst: nat, v: Operand)
    | Not(dst: nat, v: Operand)

  datatype Terminator = CondBr(cond: Operand, yes: nat, no: nat) | Br(target: nat) | RetVoid

  datatype Block = Block(instrs: seq<Instr>, term: Option<Terminator>)

  // ---------- Definitions and uses ----------

  function IdsOf(v: Operand): set<nat> {
    if v.Reg? then {v.id} else {}
  }

  function IdsOfAll(vs: seq<Operand>): set<nat> {
    if vs == [] then {} else IdsOf(vs[0]) + IdsOfAll(vs[1..])
  }

  function IdOf(id: Option<nat>): set<nat> {
    if id.Some? then {id.value} else {}
  }

  /** The registers an instruction reads. */
  function Uses(i: Instr): set<nat> {
    match i
    case CallPrint(v) => IdsOf(v)
    case CallLookup(_, _) => {}
    case CallAttribute(_, base, _) => IdsOf(base)
    case CallWrap(_, v) => IdsOf(v)
    case CallCompare(_, _, _, l, r) => IdsOf(l) + IdsOf(r)
    case CallBinary(_, _, _, l, r) => IdsOf(l) + IdsOf(r)
    case CallUnary(_, _, _, v) => IdsOf(v)
    case CallMethod(_, _, args) => IdsOfAll(args)
    case CallLoopInit(_, _, v) => IdsOf(v)
    case CallLoopGet(table, pos, _, _) => {table, pos}
    case CallLoopNext(_, table, pos) => {table, pos}
    case CallDestruct(v) => IdsOf(v)
    case NotNull(_, ptr) => {ptr}
    case SIToFP(_, v) => IdsOf(v)
    case IntOp(_, _, l, r) => IdsOf(l) + IdsOf(r)
    case FloatOp(_, _, l, r) => IdsOf(l) + IdsOf(r)
    case ICmp(_, _, l, r) => IdsOf(l) + IdsOf(r)
    case FCmp(_, _, l, r) => IdsOf(l) + IdsOf(r)
    case Logic(_, _, l, r) => IdsOf(l) + IdsOf(r)
    case Neg(_, v) => IdsOf(v)
    case Not(_, v) => IdsOf(v)
  }

  /** The registers it defines. */
  function Defs(i: Instr): set<nat> {
    match i
    case CallPrint(_) => {}
    case CallLookup(dst, _) => {dst}
    case CallAttribute(dst, _, _) => {dst}
    case CallWrap(dst, _) => {dst}
    case CallCompare(ok, dst, _, _, _) => {ok, dst}
    case CallBinary(ok, dst, _, _, _) => {ok, dst}
    case CallUnary(ok, dst, _, _) => {ok, dst}
    case CallMethod(dst, _, _) => {dst}
    case CallLoopInit(table, pos, _) => {table, pos}
    case CallLoopGet(_, _, key, val) => IdOf(key) + IdOf(val)
    case CallLoopNext(dst, _, _) => {dst}
    case CallDestruct(_) => {}
    case NotNull(dst, _) => {dst}
    case SIToFP(dst, _) => {dst}
    case IntOp(dst, _, _, _) => {dst}
    case FloatOp(dst, _, _, _) => {dst}
    case ICmp(dst, _, _, _) => {dst}
    case FCmp(dst, _, _, _) => {dst}
    case Logic(dst, _, _, _) => {dst}
    case Neg(dst, _) => {dst}
    case Not(dst, _) => {dst}
  }

  function DefsOf(instrs: seq<Instr>): set<nat> {
    if instrs == [] then {} else DefsOf(instrs[..|instrs| - 1]) + Defs(instrs[|instrs| - 1])
  }

  function TermUses(t: Terminator): set<nat> {
    if t.CondBr? then IdsOf(t.cond) else {}
  }

  function Targets(t: Terminator): set<nat> {
    match t
    case CondBr(_, yes, no) => {yes, no}
    case Br(target) => {target}
    case RetVoid => {}
  }

  // ---------- Machine states ----------

  /** What a register holds. */
  datatype Content = Val(v: Value) | TableOf(entries: seq<Entry>) | Position(i: nat) | NullPtr

  /** A register, and the temporary in whose storage its value lives: itself for a temporary,
      none for a value that the caller owns. */
  datatype Slot = Slot(content: Content, root: Option<nat>)

  /** Registers, the text printed so far, the temporaries that have been created and not yet
      destroyed; whether one was used or destroyed after its end, and whether one was created
      again before it. */
  datatype State = State(regs: map<nat, Slot>, out: string, live: set<nat>, dangling: bool, recreated: bool)

  datatype Machine = Machine(h: Host, data: string -> Value, blocks: seq<Block>)

  function ValueOf(s: State, o: Operand): Option<Value> {
    match o
    case Reg(id, _) => if id in s.regs && s.regs[id].content.Val? then Some(s.regs[id].content.v) else None
    case ConstInt(i) => Some(Int(i))
    case ConstBool(b) => Some(Bool(b))
    case ConstDouble(d) => Some(Dbl(d))
    case ConstString(t) => Some(Str(t))
  }

  function ValuesOf(s: State, os: seq<Operand>): (r: Option<seq<Value>>)
    ensures r.Some? ==> |r.value| == |os|
  {
    if os == [] then Some([])
    else
      var v, vs := ValueOf(s, os[0]), ValuesOf(s, os[1..]);
      if v.None? || vs.None? then None else Some([v.value] + vs.value)
  }

  function RootOf(s: State, o: Operand): Option<nat> {
    if o.Reg? && o.id in s.regs then s.regs[o.id].root else None
  }

  /** The storage of the operand's value still exists. */
  predicate Usable(s: State, o: Operand) {
    RootOf(s, o).Some? ==> RootOf(s, o).value in s.live
  }

  predicate AllUsable(s: State, os: seq<Operand>) {
    forall o :: o in os ==> Usable(s, o)
  }

  /** Stores a value that needs no destruction. */
  function Store(s: State, dst: nat, v: Value, root: Option<nat>): State {
    s.(regs := s.regs[dst := Slot(Val(v), root)])
  }

  /** Creates a temporary; it leaks if the previous one in this register is still alive. */
  function Create(s: State, dst: nat, v: Value): State {
    Store(s, dst, v, Some(dst)).(live := s.live + {dst}, recreated := s.recreated || dst in s.live)
  }

  function Touch(s: State, o: Operand): State {
    s.(dangling := s.dangling || !Usable(s, o))
  }

  // ---------- Arithmetic of the machine ----------

  const TWO_TO_64: int := 18446744073709551616

  /** Two's complement on 64 bits. */
  function Wrap64(i: int): int {
    var r := i % TWO_TO_64;
    if r > INT64_MAX then r - TWO_TO_64 else r
  }

  function Signed(v: Value): Option<int> {
    match v
    case Int(i) => Some(i)
    case Bool(b) => Some(if b then -1 else 0)
    case _ => None
  }

  /** `add`, `sub`, `mul`, `sdiv exact` and `srem`; None is undefined. */
  function IntOpValue(op: BinaryOp, a: Value, b: Value): Option<Value> {
    if !a.Int? || !b.Int? then None
    else
      match op
      case Addition => Some(Int(Wrap64(a.i + b.i)))
      case Subtraction => Some(Int(Wrap64(a.i - b.i)))
      case Multiplication => Some(Int(Wrap64(a.i * b.i)))
      case Division =>
        if b.i == 0 || !FitsInt64(TruncDiv(a.i, b.i)) || TruncMod(a.i, b.i) != 0 then None
        else Some(Int(TruncDiv(a.i, b.i)))
      case Modulus => if b.i == 0 || !FitsInt64(TruncDiv(a.i, b.i)) then None else Some(Int(TruncMod(a.i, b.i)))
  }

  /** The double that `sitofp` makes of an integer or of an i1, whose one bit is its sign. */
  function Converted(v: Value): Double {
    if v.Dbl? then v.d else if Signed(v).Some? then ToDouble(Signed(v).value) else NaN
  }

  /** The ordered comparisons: unlike C++'s, `one` is false on NaN. */
  predicate OrderedCompare(op: ComparisonOp, a: Double, b: Double) {
    a != NaN && b != NaN && CompareDoubles(op, a, b)
  }

  // ---------- Running instructions ----------

  /** None is undefined behaviour, including the use of a register that was never set. */
  function Exec(m: Machine, i: Instr, s: State): Option<State> {
    match i
    case CallPrint(v) =>
      (match ValueOf(s, v)
       case None => None
       case Some(x) => Some(Touch(s, v).(out := s.out + Show(m.h, x))))
    case CallLookup(dst, name) => Some(Store(s, dst, m.data(name), None))
    case CallAttribute(dst, base, name) =>
      (match ValueOf(s, base)
       case None => None
       case Some(x) =>
         var root := if HasAttribute(x, name) then RootOf(s, base) else None;
         Some(Store(Touch(s, base), dst, GetAttribute(x, name), root)))
    case CallWrap(dst, v) =>
      (match ValueOf(s, v)
       case None => None
       case Some(x) => Some(Store(s, dst, x, None)))
    case CallCompare(ok, dst, op, l, r) =>
      var a, b := ValueOf(s, l), ValueOf(s, r);
      var s' := Touch(Touch(s, l), r);
      if a.None? || b.None? then None
      else
        (match m.h.compare(op, a.value, b.value)
         case None => Some(Store(s', ok, Bool(false), None))
         case Some(c) => Some(Store(Store(s', ok, Bool(true), None), dst, Bool(c), None)))
    case CallBinary(ok, dst, op, l, r) =>
      var a, b := ValueOf(s, l), ValueOf(s, r);
      var s' := Touch(Touch(s, l), r);
      if a.None? || b.None? then None
      else
        (match m.h.binary(op, a.value, b.value)
         case None => Some(Store(s', ok, Bool(false), None))
         case Some(x) => Some(Create(Store(s', ok, Bool(true), None), dst, x)))
    case CallUnary(ok, dst, op, v) =>
      var a := ValueOf(s, v);
      if a.None? then None
      else
        (match m.h.unary(op, a.value)
         case None => Some(Store(Touch(s, v), ok, Bool(false), None))
         case Some(x) => Some(Create(Store(Touch(s, v), ok, Bool(true), None), dst, x)))
    case CallMethod(dst, name, args) =>
      var vs := ValuesOf(s, args);
      var s' := s.(dangling := s.dangling || !AllUsable(s, args));
      if vs.None? then None
      else
        (match m.h.call(name, vs.value)
         case None => Some(s'.(regs := s'.regs[dst := Slot(NullPtr, None)]))
         case Some(x) => Some(Create(s', dst, x)))
    case CallLoopInit(table, pos, v) =>
      (match ValueOf(s, v)
       case None => None
       case Some(x) =>
         var content := if EntriesOf(x) == [] then NullPtr else TableOf(EntriesOf(x));
         Some(Touch(s, v).(regs := s.regs[table := Slot(content, RootOf(s, v))][pos := Slot(Position(0), None)])))
    case CallLoopGet(table, pos, key, val) =>
      if table !in s.regs || pos !in s.regs || !s.regs[table].content.TableOf? || !s.regs[pos].content.Position?
         || s.regs[pos].content.i >= |s.regs[table].content.entries| then None
      else
        var entry := s.regs[table].content.entries[s.regs[pos].content.i];
        var root := s.regs[table].root;
        var s1 := s.(dangling := s.dangling || (root.Some? && root.value !in s.live));
        var s2 := if val.Some? then Store(s1, val.value, entry.val, root) else s1;
        Some(if key.Some? then Create(s2, key.value, entry.key) else s2)
    case CallLoopNext(dst, table, pos) =>
      if table !in s.regs || pos !in s.regs || !s.regs[table].content.TableOf? || !s.regs[pos].content.Position?
      then None
      else
        var next := s.regs[pos].content.i + 1;
        var root := s.regs[table].root;
        var s1 := s.(dangling := s.dangling || (root.Some? && root.value !in s.live),
                     regs := s.regs[pos := Slot(Position(next), None)]);
        Some(Store(s1, dst, Bool(next < |s.regs[table].content.entries|), None))
    case CallDestruct(v) =>
      if !v.Reg? then None
      else Some(s.(dangling := s.dangling || v.id !in s.live || RootOf(s, v) != Some(v.id), live := s.live - {v.id}))
    case NotNull(dst, ptr) =>
      if ptr !in s.regs then None else Some(Store(s, dst, Bool(s.regs[ptr].content != NullPtr), None))
    case SIToFP(dst, v) =>
      (match ValueOf(s, v)
       case None => None
       case Some(x) => if Signed(x).None? then None else Some(Store(s, dst, Dbl(ToDouble(Signed(x).value)), None)))
    case IntOp(dst, op, l, r) =>
      var a, b := ValueOf(s, l), ValueOf(s, r);
      if a.None? || b.None? || IntOpValue(op, a.value, b.value).None? then None
      else Some(Store(s, dst, IntOpValue(op, a.value, b.value).value, None))
    case FloatOp(dst, op, l, r) =>
      var a, b := ValueOf(s, l), ValueOf(s, r);
      if a.None? || b.None? || !a.value.Dbl? || !b.value.Dbl? then None
      else Some(Store(s, dst, Dbl(m.h.fpu.arith(op, a.value.d, b.value.d)), None))
    case ICmp(dst, op, l, r) =>
      var a, b := ValueOf(s, l), ValueOf(s, r);
      if a.None? || b.None? || Signed(a.value).None? || Signed(b.value).None? then None
      else Some(Store(s, dst, Bool(CompareInts(op, Signed(a.value).value, Signed(b.value).value)), None))
    case FCmp(dst, op, l, r) =>
      var a, b := ValueOf(s, l), ValueOf(s, r);
      if a.None? || b.None? || !a.value.Dbl? || !b.value.Dbl? then None
      else Some(Store(s, dst, Bool(OrderedCompare(op, a.value.d, b.value.d)), None))
    case Logic(dst, op, l, r) =>
      var a, b := ValueOf(s, l), ValueOf(s, r);
      if a.None? || b.None? || !a.value.Bool? || !b.value.Bool? then None
      else Some(Store(s, dst, Bool(if op.Or? then a.value.b || b.value.b else a.value.b && b.value.b), None))
    case Neg(dst, v) =>
      (match ValueOf(s, v)
       case None => None
       case Some(x) => if !x.Int? then None else Some(Store(s, dst, Int(Wrap64(0 - x.i)), None)))
    case Not(dst, v) =>
      (match ValueOf(s, v)
       case None => None
       case Some(x) =>
         if x.Bool? then Some(Store(s, dst, Bool(!x.b), None))
         else if x.Int? then Some(Store(s, dst, Int(-1 - x.i), None))
         else None)
  }

  // ---------- Running blocks ----------

  datatype Config = At(block: nat, pc: nat, s: State) | Done(s: State) | Undefined

  function Step(m: Machine, c: Config): Config {
    if !c.At? then c
    else if c.block >= |m.blocks| then Undefined
    else
      var b := m.blocks[c.block];
      if c.pc < |b.instrs| then
        match Exec(m, b.instrs[c.pc], c.s)
        case None => Undefined
        case Some(s) => At(c.block, c.pc + 1, s)
      else
        match b.term
        case None => Undefined
        case Some(RetVoid) => Done(c.s)
        case Some(Br(t)) => At(t, 0, c.s)
        case Some(CondBr(v, yes, no)) =>
          match ValueOf(c.s, v)
          case Some(Bool(x)) => At(if x then yes else no, 0, c.s)
          case _ => Undefined
  }

  function Steps(m: Machine, c: Config, n: nat): Config
    decreases n
  {
    if n == 0 then c else Steps(m, Step(m, c), n - 1)
  }

  /** The machine gets from one configuration to another in some number of steps. */
  ghost predicate Reaches(m: Machine, c: Config, c': Config) {
    exists n: nat :: Steps(m, c, n) == c'
  }

  lemma ReachesSelf(m: Machine, c: Config)
    ensures Reaches(m, c, c)
  {
    assert Steps(m, c, 0) == c;
  }

  lemma ReachesStep(m: Machine, c: Config)
    ensures Reaches(m, c, Step(m, c))
  {
    assert Steps(m, Step(m, c), 0) == Step(m, c);
    assert Steps(m, c, 1) == Step(m, c);
  }

  lemma {:induction false} StepsAdd(m: Machine, c: Config, a: nat, b: nat)
    ensures Steps(m, Steps(m, c, a), b) == Steps(m, c, a + b)
    decreases a
  {
    if a > 0 {
      StepsAdd(m, Step(m, c), a - 1, b);
    }
  }

  lemma ReachesTrans(m: Machine, a: Config, b: Config, c: Config)
    requires Reaches(m, a, b) && Reaches(m, b, c)
    ensures Reaches(m, a, c)
  {
    var i: nat :| Steps(m, a, i) == b;
    var j: nat :| Steps(m, b, j) == c;
    StepsAdd(m, a, i, j);
  }

  /** Running is deterministic: a run that ends, ends in one way. */
  lemma ReachesOneEnd(m: Machine, c: Config, s: State, d: Config)
    requires Reaches(m, c, Done(s)) && Reaches(m, c, d) && !d.At?
    ensures d == Done(s)
  {
    var i: nat :| Steps(m, c, i) == Done(s);
    var j: nat :| Steps(m, c, j) == d;
    if i <= j {
      StepsAdd(m, c, i, j - i);
      Stays(m, Done(s), j - i);
    } else {
      StepsAdd(m, c, j, i - j);
      Stays(m, d, i - j);
    }
  }

  lemma {:induction false} Stays(m: Machine, c: Config, n: nat)
    requires !c.At?
    ensures Steps(m, c, n) == c
  {
    if n > 0 {
      Stays(m, c, n - 1);
    }
  }
}
