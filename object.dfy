/**
 * The object model of the tracing garbage collector (src/object.rs): every
 * heap object sits in a `GcData` cell with a mark bit and an intrusive `next`
 * link, and the mark phase greys objects by pushing newly marked ones onto a
 * worklist. Heap references are ids; `Memory` maps each id to its cell and
 * stands for the raw `Gc<T>` pointers.
 */
module Objects {
  import opened Results

  /** The address of a heap object. */
  type ObjId = nat

  /** The variants of the `Object` enum. */
  datatype Kind = String | Upvalue | Closure | Fun | NativeFun | Class | Instance | BoundMethod

  /** A tagged reference to a heap object, as the Rust `Object` enum of `Gc` pointers. */
  datatype Object = Object(kind: Kind, id: ObjId)

  /** A runtime value; numbers are left abstract. */
  datatype Value = Nil | Bool(b: bool) | Number(n: real) | Obj(obj: Object)

  /** The failure of the `as_*` casts. */
  datatype ObjectError = InvalidCast

  /** `ObjUpvalue`: a variable still on the stack, or one moved to the heap. */
  datatype ObjUpvalue = Open(slot: nat) | Closed(value: Value)

  /** `ObjClosure`: a function and the upvalues it captured. */
  datatype ObjClosure = ObjClosure(fun: ObjId, upvalues: seq<ObjId>)

  /** `ObjFun`; of its bytecode chunk only the constant table matters here. */
  datatype ObjFun = ObjFun(name: Option<string>, arity: nat, upvalueCount: nat, constants: seq<Value>)

  /** `ObjNativeFun`; the Rust function pointer is not modelled. */
  datatype ObjNativeFun = ObjNativeFun(arity: nat)

  /** `ObjClass`: a name and its methods, each a closure. */
  datatype ObjClass = ObjClass(name: string, methods: map<string, ObjId>)

  /** `ObjInstance`: the class of the instance and its fields. */
  datatype ObjInstance = ObjInstance(classId: ObjId, fields: map<string, Value>)

  /** `ObjBoundMethod`: a receiver and the closure (`method` in Rust) bound to it. */
  datatype ObjBoundMethod = ObjBoundMethod(receiver: Value, closure: ObjId)

  /** The data a `GcData` cell carries, one variant per object kind. */
  datatype Payload =
    | StringData(chars: string)
    | UpvalueData(upvalue: ObjUpvalue)
    | ClosureData(closure: ObjClosure)
    | FunData(fun: ObjFun)
    | NativeFunData(native: ObjNativeFun)
    | ClassData(klass: ObjClass)
    | InstanceData(instance: ObjInstance)
    | BoundMethodData(bound: ObjBoundMethod)

  /** `Object::as_upvalue`. */
  function AsUpvalue(o: Object): (r: Result<ObjId, ObjectError>)
    ensures r.Ok? <==> o.kind == Upvalue
    ensures r.Ok? ==> r.value == o.id
    ensures r.Err? ==> r.error == InvalidCast
  {
    if o.kind == Upvalue then Ok(o.id) else Err(InvalidCast)
  }

  /** `Object::as_closure`. */
  function AsClosure(o: Object): (r: Result<ObjId, ObjectError>)
    ensures r.Ok? <==> o.kind == Closure
    ensures r.Ok? ==> r.value == o.id
    ensures r.Err? ==> r.error == InvalidCast
  {
    if o.kind == Closure then Ok(o.id) else Err(InvalidCast)
  }

  /** `Object::as_fun`. */
  function AsFun(o: Object): (r: Result<ObjId, ObjectError>)
    ensures r.Ok? <==> o.kind == Fun
    ensures r.Ok? ==> r.value == o.id
    ensures r.Err? ==> r.error == InvalidCast
  {
    if o.kind == Fun then Ok(o.id) else Err(InvalidCast)
  }

  /** At most one of the three casts succeeds on any object. */
  lemma CastsExclusive(o: Object)
    ensures !(AsUpvalue(o).Ok? && AsClosure(o).Ok?)
    ensures !(AsUpvalue(o).Ok? && AsFun(o).Ok?)
    ensures !(AsClosure(o).Ok? && AsFun(o).Ok?)
  {
  }

  // ---------------------------------------------------------------------
  // The direct references of each kind: what its mark_references must mark.

  /** The objects among a sequence of values. */
  ghost function ObjectsAmong(vs: seq<Value>): set<Object>
  {
    set v | v in vs && v.Obj? :: v.obj
  }

  /** The upvalue objects with the given ids. */
  ghost function UpvalueObjects(us: seq<ObjId>): set<Object>
  {
    set u | u in us :: Object(Upvalue, u)
  }

  ghost function ClosureRefs(c: ObjClosure): set<Object>
  {
    {Object(Fun, c.fun)} + UpvalueObjects(c.upvalues)
  }

  ghost function UpvalueRefs(u: ObjUpvalue): set<Object>
  {
    if u.Closed? && u.value.Obj? then {u.value.obj} else {}
  }

  ghost function FunRefs(f: ObjFun): set<Object>
  {
    ObjectsAmong(f.constants)
  }

  ghost function ClassRefs(c: ObjClass): set<Object>
  {
    set k | k in c.methods :: Object(Closure, c.methods[k])
  }

  /** The objects held by the fields whose names are in `names`. */
  ghost function FieldRefs(fields: map<string, Value>, names: set<string>): set<Object>
  {
    set k | k in names && k in fields && fields[k].Obj? :: fields[k].obj
  }

  ghost function InstanceRefs(i: ObjInstance): set<Object>
  {
    {Object(Class, i.classId)} + FieldRefs(i.fields, i.fields.Keys)
  }

  ghost function BoundMethodRefs(b: ObjBoundMethod): set<Object>
  {
    (if b.receiver.Obj? then {b.receiver.obj} else {}) + {Object(Closure, b.closure)}
  }

  /** The objects a payload refers to directly; strings and native functions refer to none. */
  ghost function References(p: Payload): set<Object>
  {
    match p
    case StringData(_) => {}
    case UpvalueData(u) => UpvalueRefs(u)
    case ClosureData(c) => ClosureRefs(c)
    case FunData(f) => FunRefs(f)
    case NativeFunData(_) => {}
    case ClassData(c) => ClassRefs(c)
    case InstanceData(i) => InstanceRefs(i)
    case BoundMethodData(b) => BoundMethodRefs(b)
  }

  /** The kind of object a payload is the contents of: the `Object` variant whose `Gc` points at it. */
  function KindOf(p: Payload): (k: Kind)
    ensures k == String <==> p.StringData?
    ensures k == Upvalue <==> p.UpvalueData?
    ensures k == Closure <==> p.ClosureData?
    ensures k == Fun <==> p.FunData?
    ensures k == NativeFun <==> p.NativeFunData?
    ensures k == Class <==> p.ClassData?
    ensures k == Instance <==> p.InstanceData?
    ensures k == BoundMethod <==> p.BoundMethodData?
  {
    match p
    case StringData(_) => String
    case UpvalueData(_) => Upvalue
    case ClosureData(_) => Closure
    case FunData(_) => Fun
    case NativeFunData(_) => NativeFun
    case ClassData(_) => Class
    case InstanceData(_) => Instance
    case BoundMethodData(_) => BoundMethod
  }

  // ---------------------------------------------------------------------
  // The specification of greying.

  /** The ids of a set of targets. */
  ghost function IdsOf(s: set<Object>): set<ObjId>
  {
    set o | o in s :: o.id
  }

  /**
   * The ids on a stretch of the worklist. The worklist is a `Vec`, whose
   * order and repetitions `Traced` speaks about, so it stays a sequence here
   * rather than being turned into the set `IdsOf` takes.
   */
  ghost function SeqIds(g: seq<Object>): set<ObjId>
  {
    set o | o in g :: o.id
  }

  /** Every object on the worklist `grey` is in the marked set `m`. */
  ghost predicate AllMarked(grey: seq<Object>, m: set<ObjId>)
  {
    forall k :: 0 <= k < |grey| ==> grey[k].id in m
  }

  /**
   * Marking `targets` took the marked set from `m0` to `m1` and the worklist
   * from `g0` to `g1`: every target is now marked, nothing else was, and the
   * worklist was extended by exactly the targets that were unmarked before,
   * each once.
   */
  ghost predicate Traced(m0: set<ObjId>, m1: set<ObjId>, g0: seq<Object>, g1: seq<Object>, targets: set<Object>)
  {
    && m1 == m0 + IdsOf(targets)
    && g0 <= g1
    && (forall k :: |g0| <= k < |g1| ==> g1[k] in targets)
    && SeqIds(g1[|g0|..]) == IdsOf(targets) - m0
    && (forall i, j :: |g0| <= i < j < |g1| ==> g1[i].id != g1[j].id)
  }

  lemma IdsOfUnion(a: set<Object>, b: set<Object>)
    ensures IdsOf(a + b) == IdsOf(a) + IdsOf(b)
  {
  }

  lemma SeqIdsConcat(a: seq<Object>, b: seq<Object>)
    ensures SeqIds(a + b) == SeqIds(a) + SeqIds(b)
  {
  }

  lemma UpvalueObjectsStep(us: seq<ObjId>, i: nat)
    requires i < |us|
    ensures UpvalueObjects(us[..i + 1]) == UpvalueObjects(us[..i]) + {Object(Upvalue, us[i])}
  {
    assert us[..i + 1] == us[..i] + [us[i]];
  }

  lemma ObjectsAmongStep(vs: seq<Value>, i: nat)
    requires i < |vs|
    ensures ObjectsAmong(vs[..i + 1]) == ObjectsAmong(vs[..i]) + (if vs[i].Obj? then {vs[i].obj} else {})
  {
    assert vs[..i + 1] == vs[..i] + [vs[i]];
  }

  lemma FieldRefsStep(fields: map<string, Value>, names: set<string>, name: string)
    requires name in fields
    ensures FieldRefs(fields, names + {name})
         == FieldRefs(fields, names) + (if fields[name].Obj? then {fields[name].obj} else {})
  {
  }

  /** Only the empty worklist segment has no ids. */
  lemma SeqIdsEmpty(g: seq<Object>)
    ensures SeqIds(g) == {} ==> g == []
  {
    if g != [] {
      assert g[0].id in SeqIds(g);
    }
  }

  /** Marking nothing changes nothing. */
  lemma TracedNothing(m: set<ObjId>, g: seq<Object>)
    ensures Traced(m, m, g, g, {})
  {
    assert g[|g|..] == [];
  }

  /** Marking `a` and then `b` is marking `a + b`. */
  lemma TracedCompose(m0: set<ObjId>, m1: set<ObjId>, m2: set<ObjId>,
                      g0: seq<Object>, g1: seq<Object>, g2: seq<Object>,
                      a: set<Object>, b: set<Object>)
    requires Traced(m0, m1, g0, g1, a)
    requires Traced(m1, m2, g1, g2, b)
    ensures Traced(m0, m2, g0, g2, a + b)
  {
    IdsOfUnion(a, b);
    assert g2[|g0|..] == g1[|g0|..] + g2[|g1|..];
    SeqIdsConcat(g1[|g0|..], g2[|g1|..]);
    forall i, j | |g0| <= i < j < |g2| ensures g2[i].id != g2[j].id {
      if i < |g1| && j >= |g1| {
        assert g2[i] == g1[i];
        assert g1[i].id in SeqIds(g1[|g0|..]) by {
          assert g1[|g0|..][i - |g0|] == g1[i];
        }
        assert g2[j].id in SeqIds(g2[|g1|..]) by {
          assert g2[|g1|..][j - |g1|] == g2[j];
        }
      } else if j < |g1| {
        assert g2[i] == g1[i] && g2[j] == g1[j];
      }
    }
  }

  /**
   * Marking is idempotent: marking the same targets a second time marks
   * nothing new and leaves the worklist as it was.
   */
  lemma {:induction false} TracedIdempotent(m0: set<ObjId>, m1: set<ObjId>, m2: set<ObjId>,
                                            g0: seq<Object>, g1: seq<Object>, g2: seq<Object>,
                                            targets: set<Object>)
    requires Traced(m0, m1, g0, g1, targets)
    requires Traced(m1, m2, g1, g2, targets)
    ensures m2 == m1 && g2 == g1
  {
    SeqIdsEmpty(g2[|g1|..]);
    assert g2 == g1 + g2[|g1|..];
  }

  /** Greying keeps the worklist invariant: every grey object is marked. */
  lemma TracedKeepsGreyMarked(m0: set<ObjId>, m1: set<ObjId>, g0: seq<Object>, g1: seq<Object>, targets: set<Object>)
    requires Traced(m0, m1, g0, g1, targets)
    requires AllMarked(g0, m0)
    ensures AllMarked(g1, m1)
  {
    forall k | 0 <= k < |g1| ensures g1[k].id in m1 {
      if k < |g0| {
        assert g1[k] == g0[k];
      } else {
        assert g1[k] in targets;
      }
    }
  }

  // ---------------------------------------------------------------------
  // Cells and the memory that holds them.

  /** `GcData<T>`: the header every heap object carries, and its data. */
  class GcData<T> {
    var next: Option<Object>
    var marked: bool
    const data: T

    /** `GcData::new`: an unmarked cell linked to `next`. */
    constructor (next: Option<Object>, data: T)
      ensures this.next == next && this.data == data && !marked
    {
      this.next := next;
      this.marked := false;
      this.data := data;
    }

    /** `GcData::get_next`. */
    function GetNext(): (r: Option<Object>)
      reads this
      ensures r == next
    {
      next
    }

    /** `GcData::set_next`: relinks the cell and leaves the mark alone. */
    method SetNext(next: Option<Object>)
      modifies this
      ensures this.next == next && marked == old(marked)
    {
      this.next := next;
    }

    /** `GcData::is_marked`. */
    function IsMarked(): (r: bool)
      reads this
      ensures r == marked
    {
      marked
    }

    /**
     * `GcData::mark`: test-and-set. Returns true exactly when the cell was
     * unmarked; a cell already marked is left as it was.
     */
    method Mark() returns (newly: bool)
      modifies this
      ensures newly == !old(marked)
      ensures marked && next == old(next)
      ensures old(marked) ==> unchanged(this)
    {
      if marked {
        return false;
      }
      marked := true;
      newly := true;
    }

    /** `GcData::unmark`. */
    method Unmark()
      modifies this
      ensures !marked && next == old(next)
    {
      marked := false;
    }
  }

  /** Relinking a cell and reading its link back gives the new link; the mark is untouched. */
  method SetNextThenGetNext<T>(cell: GcData<T>, next: Option<Object>) returns (r: Option<Object>)
    modifies cell
    ensures r == next
    ensures cell.IsMarked() == old(cell.IsMarked())
  {
    cell.SetNext(next);
    r := cell.GetNext();
  }

  /**
   * Marking a cell leaves it marked and its link untouched; a second mark
   * reports that there was nothing left to do.
   */
  method MarkThenIsMarked<T>(cell: GcData<T>) returns (newly: bool, again: bool, r: bool)
    modifies cell
    ensures newly == !old(cell.IsMarked())
    ensures !again && r
    ensures cell.GetNext() == old(cell.GetNext())
  {
    newly := cell.Mark();
    again := cell.Mark();
    r := cell.IsMarked();
  }

  /**
   * Distinct ids are distinct cells, and every reference points at a cell
   * holding an object of the reference's kind (in Rust, the `Gc` type of
   * each `Object` variant guarantees the latter). A cell's payload is a
   * `const`, so this depends on the map alone.
   */
  ghost predicate WellFormed(cells: map<ObjId, GcData<Payload>>) {
    && (forall i, j :: i in cells && j in cells && i != j ==> cells[i] != cells[j])
    && (forall i, o :: i in cells && o in References(cells[i].data) ==>
          o.id in cells && KindOf(cells[o.id].data) == o.kind)
  }

  /**
   * The cells of all live objects, by id. Allocation and sweeping (heap.rs)
   * are not part of this model; the mark phase works on a fixed set of cells.
   */
  class Memory {
    var cells: map<ObjId, GcData<Payload>>

    ghost predicate Valid()
      reads this
    {
      WellFormed(cells)
    }

    /** A heap over the given cells. */
    constructor (cells: map<ObjId, GcData<Payload>>)
      requires WellFormed(cells)
      ensures this.cells == cells && Valid()
    {
      this.cells := cells;
    }

    /** The ids of the marked objects. */
    ghost function Marked(): set<ObjId>
      reads this, cells.Values
    {
      set id | id in cells && cells[id].marked
    }

    /** The `next` link of every object. */
    ghost function Links(): map<ObjId, Option<Object>>
      reads this, cells.Values
    {
      map id | id in cells :: cells[id].next
    }

    /** `Object::is_marked`. */
    function IsMarked(o: Object): (r: bool)
      reads this, cells.Values
      requires o.id in cells
      ensures r <==> o.id in Marked()
    {
      cells[o.id].IsMarked()
    }

    /** `Object::get_next`. */
    function GetNext(o: Object): (r: Option<Object>)
      reads this, cells.Values
      requires o.id in cells
      ensures r == Links()[o.id]
    {
      cells[o.id].GetNext()
    }

    /** `Object::set_next`: relinks one object; marks and other links are unchanged. */
    method SetNext(o: Object, next: Option<Object>)
      requires Valid() && o.id in cells
      modifies cells[o.id]
      ensures Valid()
      ensures Links() == old(Links())[o.id := next]
      ensures Marked() == old(Marked())
    {
      cells[o.id].SetNext(next);
    }

    /** `Object::unmark`. */
    method Unmark(o: Object)
      requires Valid() && o.id in cells
      modifies cells[o.id]
      ensures Valid()
      ensures Marked() == old(Marked()) - {o.id}
      ensures Links() == old(Links())
    {
      cells[o.id].Unmark();
    }

    /**
     * `Object::mark`: marks `o` and appends it to the worklist exactly when
     * it was not marked before.
     */
    method Mark(o: Object, grey: seq<Object>) returns (grey': seq<Object>)
      requires Valid() && o.id in cells
      modifies cells[o.id]
      ensures Valid()
      ensures grey' == if o.id in old(Marked()) then grey else grey + [o]
      ensures Marked() == old(Marked()) + {o.id}
      ensures Links() == old(Links())
      ensures Traced(old(Marked()), Marked(), grey, grey', {o})
    {
      ghost var m0 := Marked();
      var newly := cells[o.id].Mark();
      grey' := if newly then grey + [o] else grey;
      assert IdsOf({o}) == {o.id};
      if newly {
        assert grey'[|grey|..] == [o];
        assert SeqIds([o]) == {o.id} by {
          assert [o][0].id == o.id;
        }
      } else {
        assert grey'[|grey|..] == [];
      }
    }

    /** `Mark` as one step of a longer marking: extends a trace of `done` by `o`. */
    method MarkNext(o: Object, ghost m0: set<ObjId>, ghost grey0: seq<Object>, ghost done: set<Object>, grey: seq<Object>)
      returns (grey': seq<Object>)
      requires Valid() && o.id in cells
      requires Traced(m0, Marked(), grey0, grey, done)
      modifies cells[o.id]
      ensures Valid()
      ensures Links() == old(Links())
      ensures Traced(m0, Marked(), grey0, grey', done + {o})
    {
      ghost var m1 := Marked();
      grey' := Mark(o, grey);
      TracedCompose(m0, m1, Marked(), grey0, grey, grey', done, {o});
    }

    /** `ObjClosure::mark_references`: marks the function and every captured upvalue. */
    method MarkClosureReferences(c: ObjClosure, grey: seq<Object>) returns (grey': seq<Object>)
      requires Valid()
      requires forall o :: o in ClosureRefs(c) ==> o.id in cells
      modifies cells.Values
      ensures Valid()
      ensures Links() == old(Links())
      ensures Traced(old(Marked()), Marked(), grey, grey', ClosureRefs(c))
      ensures AllMarked(grey, old(Marked())) ==> AllMarked(grey', Marked())
    {
      ghost var m0 := Marked();
      ghost var links := Links();
      grey' := Mark(Object(Fun, c.fun), grey);
      assert c.upvalues[..0] == [] && UpvalueObjects([]) == {};
      assert {Object(Fun, c.fun)} + UpvalueObjects(c.upvalues[..0]) == {Object(Fun, c.fun)};
      var i := 0;
      while i < |c.upvalues|
        invariant 0 <= i <= |c.upvalues|
        invariant Valid() && Links() == links
        invariant Traced(m0, Marked(), grey, grey', {Object(Fun, c.fun)} + UpvalueObjects(c.upvalues[..i]))
      {
        var u := Object(Upvalue, c.upvalues[i]);
        assert u in ClosureRefs(c);
        grey' := MarkNext(u, m0, grey, {Object(Fun, c.fun)} + UpvalueObjects(c.upvalues[..i]), grey');
        UpvalueObjectsStep(c.upvalues, i);
        i := i + 1;
      }
      assert c.upvalues[..i] == c.upvalues;
      if AllMarked(grey, m0) {
        TracedKeepsGreyMarked(m0, Marked(), grey, grey', ClosureRefs(c));
      }
    }

    /** `ObjUpvalue::mark_references`: only a closed upvalue holding an object marks it. */
    method MarkUpvalueReferences(u: ObjUpvalue, grey: seq<Object>) returns (grey': seq<Object>)
      requires Valid()
      requires forall o :: o in UpvalueRefs(u) ==> o.id in cells
      modifies cells.Values
      ensures Valid()
      ensures Links() == old(Links())
      ensures Traced(old(Marked()), Marked(), grey, grey', UpvalueRefs(u))
      ensures AllMarked(grey, old(Marked())) ==> AllMarked(grey', Marked())
    {
      if u.Closed? && u.value.Obj? {
        grey' := Mark(u.value.obj, grey);
      } else {
        grey' := grey;
        TracedNothing(Marked(), grey);
      }
      if AllMarked(grey, old(Marked())) {
        TracedKeepsGreyMarked(old(Marked()), Marked(), grey, grey', UpvalueRefs(u));
      }
    }

    /** `ObjFun::mark_references`: marks every object in the constant table. */
    method MarkFunReferences(f: ObjFun, grey: seq<Object>) returns (grey': seq<Object>)
      requires Valid()
      requires forall o :: o in FunRefs(f) ==> o.id in cells
      modifies cells.Values
      ensures Valid()
      ensures Links() == old(Links())
      ensures Traced(old(Marked()), Marked(), grey, grey', FunRefs(f))
      ensures AllMarked(grey, old(Marked())) ==> AllMarked(grey', Marked())
    {
      ghost var m0 := Marked();
      ghost var links := Links();
      grey' := grey;
      TracedNothing(m0, grey);
      var i := 0;
      while i < |f.constants|
        invariant 0 <= i <= |f.constants|
        invariant Valid() && Links() == links
        invariant Traced(m0, Marked(), grey, grey', ObjectsAmong(f.constants[..i]))
      {
        ghost var before := ObjectsAmong(f.constants[..i]);
        ObjectsAmongStep(f.constants, i);
        if f.constants[i].Obj? {
          assert f.constants[i].obj in FunRefs(f);
          grey' := MarkNext(f.constants[i].obj, m0, grey, before, grey');
        }
        i := i + 1;
      }
      assert f.constants[..i] == f.constants;
      if AllMarked(grey, m0) {
        TracedKeepsGreyMarked(m0, Marked(), grey, grey', FunRefs(f));
      }
    }

    /** `ObjClass::mark_references`: marks the closure of every method. */
    method MarkClassReferences(c: ObjClass, grey: seq<Object>) returns (grey': seq<Object>)
      requires Valid()
      requires forall o :: o in ClassRefs(c) ==> o.id in cells
      modifies cells.Values
      ensures Valid()
      ensures Links() == old(Links())
      ensures Traced(old(Marked()), Marked(), grey, grey', ClassRefs(c))
      ensures AllMarked(grey, old(Marked())) ==> AllMarked(grey', Marked())
    {
      ghost var m0 := Marked();
      ghost var links := Links();
      grey' := grey;
      TracedNothing(m0, grey);
      var names := c.methods.Keys;
      ghost var done: set<string> := {};
      while names != {}
        invariant names + done == c.methods.Keys && names !! done
        invariant Valid() && Links() == links
        invariant Traced(m0, Marked(), grey, grey', set k | k in done :: Object(Closure, c.methods[k]))
        decreases names
      {
        var name :| name in names;
        ghost var before := set k | k in done :: Object(Closure, c.methods[k]);
        var m := Object(Closure, c.methods[name]);
        assert m in ClassRefs(c);
        grey' := MarkNext(m, m0, grey, before, grey');
        names := names - {name};
        done := done + {name};
        assert (set k | k in done :: Object(Closure, c.methods[k])) == before + {m};
      }
      if AllMarked(grey, m0) {
        TracedKeepsGreyMarked(m0, Marked(), grey, grey', ClassRefs(c));
      }
    }

    /** `ObjInstance::mark_references`: marks the class and every object-valued field. */
    method MarkInstanceReferences(inst: ObjInstance, grey: seq<Object>) returns (grey': seq<Object>)
      requires Valid()
      requires forall o :: o in InstanceRefs(inst) ==> o.id in cells
      modifies cells.Values
      ensures Valid()
      ensures Links() == old(Links())
      ensures Traced(old(Marked()), Marked(), grey, grey', InstanceRefs(inst))
      ensures AllMarked(grey, old(Marked())) ==> AllMarked(grey', Marked())
    {
      ghost var m0 := Marked();
      ghost var links := Links();
      var klass := Object(Class, inst.classId);
      grey' := Mark(klass, grey);
      assert {klass} + FieldRefs(inst.fields, {}) == {klass};
      var names := inst.fields.Keys;
      ghost var done: set<string> := {};
      while names != {}
        invariant names + done == inst.fields.Keys && names !! done
        invariant Valid() && Links() == links
        invariant Traced(m0, Marked(), grey, grey', {klass} + FieldRefs(inst.fields, done))
        decreases names
      {
        var name :| name in names;
        ghost var before := {klass} + FieldRefs(inst.fields, done);
        FieldRefsStep(inst.fields, done, name);
        var value := inst.fields[name];
        if value.Obj? {
          assert value.obj in InstanceRefs(inst);
          grey' := MarkNext(value.obj, m0, grey, before, grey');
          assert before + {value.obj} == {klass} + FieldRefs(inst.fields, done + {name});
        } else {
          assert before == {klass} + FieldRefs(inst.fields, done + {name});
        }
        names := names - {name};
        done := done + {name};
      }
      if AllMarked(grey, m0) {
        TracedKeepsGreyMarked(m0, Marked(), grey, grey', InstanceRefs(inst));
      }
    }

    /** `ObjBoundMethod::mark_references`: marks the receiver if it is an object, then the closure. */
    method MarkBoundMethodReferences(b: ObjBoundMethod, grey: seq<Object>) returns (grey': seq<Object>)
      requires Valid()
      requires forall o :: o in BoundMethodRefs(b) ==> o.id in cells
      modifies cells.Values
      ensures Valid()
      ensures Links() == old(Links())
      ensures Traced(old(Marked()), Marked(), grey, grey', BoundMethodRefs(b))
      ensures AllMarked(grey, old(Marked())) ==> AllMarked(grey', Marked())
    {
      ghost var m0 := Marked();
      ghost var receiver: set<Object> := {};
      if b.receiver.Obj? {
        grey' := Mark(b.receiver.obj, grey);
        receiver := {b.receiver.obj};
      } else {
        grey' := grey;
        TracedNothing(m0, grey);
      }
      ghost var m1 := Marked();
      ghost var g1 := grey';
      var m := Object(Closure, b.closure);
      grey' := Mark(m, grey');
      TracedCompose(m0, m1, Marked(), grey, g1, grey', receiver, {m});
      assert receiver + {m} == BoundMethodRefs(b);
      if AllMarked(grey, m0) {
        TracedKeepsGreyMarked(m0, Marked(), grey, grey', BoundMethodRefs(b));
      }
    }

    /**
     * `Object::mark_references`: marks every object `o` refers to directly and
     * greys the newly marked ones; strings and native functions mark nothing.
     */
    method MarkReferences(o: Object, grey: seq<Object>) returns (grey': seq<Object>)
      requires Valid() && o.id in cells && KindOf(cells[o.id].data) == o.kind
      modifies cells.Values
      ensures Valid()
      ensures Links() == old(Links())
      ensures Traced(old(Marked()), Marked(), grey, grey', References(cells[o.id].data))
      ensures forall c :: c in References(cells[o.id].data) ==> c.id in Marked()
      ensures AllMarked(grey, old(Marked())) ==> AllMarked(grey', Marked())
    {
      var data := cells[o.id].data;
      match o.kind {
        case String =>
          grey' := grey;
          TracedNothing(Marked(), grey);
        case Upvalue =>
          grey' := MarkUpvalueReferences(data.upvalue, grey);
        case Closure =>
          grey' := MarkClosureReferences(data.closure, grey);
        case Fun =>
          grey' := MarkFunReferences(data.fun, grey);
        case NativeFun =>
          grey' := grey;
          TracedNothing(Marked(), grey);
        case Class =>
          grey' := MarkClassReferences(data.klass, grey);
        case Instance =>
          grey' := MarkInstanceReferences(data.instance, grey);
        case BoundMethod =>
          grey' := MarkBoundMethodReferences(data.bound, grey);
      }
    }
  }
}
