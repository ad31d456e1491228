/**
  The growable arrays of `src/stb_ds.h`: a block of storage with a header that holds
  the length and the capacity, reached through a pointer that is null until the first
  element is stored.

  `Step` gives the abstract effect of one macro on the elements and on the growth
  bookkeeping; every method of the class is proved to perform it, and the theorems at
  the end are about runs of any number of steps.
 */
module StretchyArray {

  /** The elements in use, the capacity, and two counters over the whole life of the array:
      how many elements were ever added, and how many were carried over by a growth. */
  datatype View<T> = View(items: seq<T>, cap: nat, added: nat, carried: nat)

  datatype Op<T> =
    | Put(value: T)
    | Pop
    | AddN(slots: seq<T>)             // the values that the new, unset slots happen to hold
    | InsN(at: nat, slots: seq<T>)
    | DelN(at: nat, count: nat)
    | DelSwap(at: nat)

  /** What the caller of each macro has to guarantee. */
  predicate Legal<T>(op: Op<T>, items: seq<T>) {
    match op
    case Put(_) => true
    case AddN(_) => true
    case Pop => |items| > 0
    case InsN(at, _) => at <= |items|
    case DelN(at, count) => at + count <= |items|
    case DelSwap(at) => at < |items|
  }

  /** The sequence operation behind each macro. */
  function Apply<T>(op: Op<T>, items: seq<T>): seq<T>
    requires Legal(op, items)
  {
    match op
    case Put(v) => items + [v]
    case AddN(slots) => items + slots
    case Pop => items[..|items| - 1]
    case InsN(at, slots) => items[..at] + slots + items[at..]
    case DelN(at, count) => items[..at] + items[at + count..]
    case DelSwap(at) => items[at := items[|items| - 1]][..|items| - 1]
  }

  function Added<T>(op: Op<T>): nat {
    match op
    case Put(_) => 1
    case AddN(slots) => |slots|
    case InsN(_, slots) => |slots|
    case _ => 0
  }

  /** The capacity that `stbds_arrgrowf` settles on, when `needed` slots do not fit. */
  function GrownCapacity(cap: nat, needed: nat): nat {
    if needed < 2 * cap then 2 * cap else if needed < 4 then 4 else needed
  }

  function Step<T>(v: View<T>, op: Op<T>): View<T>
    requires Legal(op, v.items)
  {
    var needed := |v.items| + Added(op);
    var grows := needed > v.cap;
    View(Apply(op, v.items),
         if grows then GrownCapacity(v.cap, needed) else v.cap,
         v.added + Added(op),
         v.carried + if grows then |v.items| else 0)
  }

  class Array<T(0)> {
    var data: array?<T>
    var length: nat
    ghost var added: nat
    ghost var carried: nat

    ghost predicate Valid()
      reads this
    {
      if data == null then length == 0 else length <= data.Length
    }

    ghost function Abstract(): View<T>
      requires Valid()
      reads this, data
    {
      View(if data == null then [] else data[..length], Cap(), added, carried)
    }

    constructor ()
      ensures Valid() && data == null && Abstract() == View([], 0, 0, 0)
    {
      data, length, added, carried := null, 0, 0, 0;
    }

    function Cap(): nat
      reads this
    {
      if data == null then 0 else data.Length
    }

    function Len(): (n: nat)
      requires Valid()
      reads this, data
      ensures n == |Abstract().items|
    {
      if data == null then 0 else length
    }

    /** `stbds_arrmaybegrow(a, n)`, with `stbds_arrgrowf` for a zero minimum capacity. */
    method MaybeGrow(n: nat)
      requires Valid()
      modifies this`data, this`carried
      ensures Valid() && length + n <= Cap()
      ensures data == old(data) || fresh(data)
      ensures n > 0 ==> data != null
      ensures old(data) != null ==> data != null && data[..length] == old(data[..length])
      ensures var grows := length + n > old(Cap());
              && Cap() == (if grows then GrownCapacity(old(Cap()), length + n) else old(Cap()))
              && carried == old(carried) + if grows then length else 0
    {
      if data == null || length + n > data.Length {
        var minCap := Len() + n;
        if minCap <= Cap() { return; }
        if minCap < 2 * Cap() {
          minCap := 2 * Cap();
        } else if minCap < 4 {
          minCap := 4;
        }
        var grown := new T[minCap];
        if data != null {
          forall k | 0 <= k < data.Length { grown[k] := data[k]; }
          carried := carried + length;
        }
        data := grown;
      }
    }

    /** `arrput` */
    method Put(v: T)
      requires Valid()
      modifies this, data
      ensures Valid() && (data == old(data) || fresh(data))
      ensures Abstract() == Step(old(Abstract()), Op.Put(v))
    {
      MaybeGrow(1);
      data[length] := v;
      length := length + 1;
      added := added + 1;
    }

    /** `arrpop` */
    method Pop() returns (v: T)
      requires Valid() && length > 0
      modifies this`length
      ensures Valid()
      ensures v == old(Abstract()).items[|old(Abstract()).items| - 1]
      ensures Abstract() == Step(old(Abstract()), Op.Pop)
    {
      length := length - 1;
      v := data[length];
    }

    /** `arraddn`: the new slots keep whatever the storage held. */
    method AddN(n: nat) returns (ghost unset: seq<T>)
      requires Valid() && (data != null || n > 0)
      modifies this
      ensures Valid() && (data == old(data) || fresh(data)) && data != null
      ensures |unset| == n
      ensures Abstract() == Step(old(Abstract()), Op.AddN(unset))
    {
      MaybeGrow(n);
      unset := data[length..length + n];
      length := length + n;
      added := added + n;
    }

    /** `arrinsn`: `arraddn` and then a `memmove` of the tail. */
    method InsN(i: nat, n: nat) returns (ghost unset: seq<T>)
      requires Valid() && i <= length && (data != null || n > 0)
      modifies this, data
      ensures Valid() && (data == old(data) || fresh(data))
      ensures |unset| == n
      ensures Abstract() == Step(old(Abstract()), Op.InsN(i, unset))
    {
      ghost var items := Abstract().items;
      ghost var _ := AddN(n);
      ghost var before := data[..];
      forall k | i + n <= k < length { data[k] := data[k - n]; }
      unset := data[i..i + n];
      Spliced(items, before, data[..], i, n, length);
    }

    /** `arrdeln`: a `memmove` of the tail over the deleted elements. */
    method DelN(i: nat, n: nat)
      requires Valid() && data != null && i + n <= length
      modifies this`length, data
      ensures Valid() && data == old(data)
      ensures Abstract() == Step(old(Abstract()), Op.DelN(i, n))
    {
      ghost var items := Abstract().items;
      forall k | i <= k < length - n { data[k] := data[k + n]; }
      length := length - n;
      assert data[..length] == items[..i] + items[i + n..];
    }

    /** `arrdelswap` */
    method DelSwap(i: nat)
      requires Valid() && i < length
      modifies this`length, data
      ensures Valid() && data == old(data)
      ensures Abstract() == Step(old(Abstract()), Op.DelSwap(i))
    {
      data[i] := data[length - 1];
      length := length - 1;
    }
  }

  /** The effect of moving the tail of `before` up by `n` slots. */
  lemma Spliced<T>(items: seq<T>, before: seq<T>, after: seq<T>, i: nat, n: nat, length: nat)
    requires i <= |items| && length == |items| + n <= |before| == |after|
    requires before[..|items|] == items
    requires forall k | 0 <= k < i + n :: after[k] == before[k]
    requires forall k | i + n <= k < length :: after[k] == before[k - n]
    ensures after[..length] == items[..i] + after[i..i + n] + items[i..]
  {
    forall k | 0 <= k < length
      ensures after[k] == (items[..i] + after[i..i + n] + items[i..])[k]
    {
      if k < i {
        assert before[k] == items[k];
      } else if k >= i + n {
        assert before[k - n] == items[k - n];
      }
    }
  }

  // ----- properties of runs -----

  ghost predicate LegalRun<T>(items: seq<T>, ops: seq<Op<T>>)
    decreases |ops|
  {
    ops == [] || (Legal(ops[0], items) && LegalRun(Apply(ops[0], items), ops[1..]))
  }

  ghost function Run<T>(v: View<T>, ops: seq<Op<T>>): View<T>
    requires LegalRun(v.items, ops)
    decreases |ops|
  {
    if ops == [] then v else Run(Step(v, ops[0]), ops[1..])
  }

  /** The elements fit, the growths so far carried no more elements than the capacity,
      and the capacity is at most twice the number of elements ever added (or 4). */
  ghost predicate Amortised<T>(v: View<T>) {
    && |v.items| <= v.cap
    && |v.items| <= v.added
    && v.carried <= v.cap
    && (v.cap <= 4 || v.cap <= 2 * v.added)
  }

  lemma {:induction false} StepKeepsAmortised<T>(v: View<T>, op: Op<T>)
    requires Amortised(v) && Legal(op, v.items)
    ensures Amortised(Step(v, op))
    ensures Step(v, op).cap >= v.cap
  {
    match op
    case InsN(at, slots) => assert |Apply(op, v.items)| == |v.items| + |slots|;
    case _ =>
  }

  /** Over any run of put, pop, insert, delete and swap-delete that starts from an empty array,
      the total number of elements copied by growths is bounded by the final capacity, and so
      by twice the number of elements added: each addition costs O(1) copies on average. */
  lemma {:induction false} RunIsAmortised<T>(v: View<T>, ops: seq<Op<T>>)
    requires Amortised(v) && LegalRun(v.items, ops)
    ensures Amortised(Run(v, ops))
    ensures Run(v, ops).cap >= v.cap
    decreases |ops|
  {
    if ops != [] {
      StepKeepsAmortised(v, ops[0]);
      RunIsAmortised(Step(v, ops[0]), ops[1..]);
    }
  }

  lemma InsertedThenDeleted<T>(items: seq<T>, at: nat, slots: seq<T>)
    requires at <= |items|
    ensures var mid := Apply(Op.InsN(at, slots), items);
            |mid| == |items| + |slots| && Apply(Op.DelN(at, |slots|), mid) == items
  {
    var mid := Apply(Op.InsN(at, slots), items);
    assert mid[..at] == items[..at];
    assert mid[at + |slots|..] == items[at..];
  }

  /** Deleting what was just inserted restores the elements. */
  lemma InsertThenDelete<T>(v: View<T>, at: nat, slots: seq<T>)
    requires at <= |v.items|
    ensures LegalRun(v.items, [Op.InsN(at, slots), Op.DelN(at, |slots|)])
    ensures Run(v, [Op.InsN(at, slots), Op.DelN(at, |slots|)]).items == v.items
  {
    var ins, del := Op.InsN(at, slots), Op.DelN(at, |slots|);
    var mid := Apply(ins, v.items);
    assert [ins, del][1..] == [del];
    InsertedThenDeleted(v.items, at, slots);
    hide Apply;
    assert LegalRun(mid, [del]);
    assert Run(Step(v, ins), [del]) == Step(Step(v, ins), del);
  }

  /** Swap-delete removes exactly the element at `at`, as a multiset. */
  lemma SwapDeleteRemovesOne<T>(items: seq<T>, at: nat)
    requires at < |items|
    ensures multiset(Apply(Op.DelSwap(at), items)) == multiset(items) - multiset{items[at]}
  {
    var n := |items|;
    var result := Apply(Op.DelSwap(at), items);
    var front, x, last := items[..at], items[at], items[n - 1];
    if at == n - 1 {
      assert result == front && items == front + [x];
    } else {
      var middle := items[at + 1..n - 1];
      assert items == front + ([x] + (middle + [last]));
      assert result == front + ([last] + middle);
      MovedOver(front, x, middle, last);
    }
  }

  lemma MovedOver<T>(front: seq<T>, x: T, middle: seq<T>, last: T)
    ensures multiset(front + ([last] + middle)) == multiset(front + ([x] + (middle + [last]))) - multiset{x}
  {
  }

  /** Popping undoes a put, and deleting at the end undoes adding there. */
  lemma AddThenRemove<T>(v: View<T>, x: T, slots: seq<T>)
    ensures Apply(Op.Pop, Apply(Op.Put(x), v.items)) == v.items
    ensures Apply(Op.DelN(|v.items|, |slots|), Apply(Op.AddN(slots), v.items)) == v.items
    ensures Apply(Op.Put(x), v.items)[|v.items|] == x && Apply(Op.AddN(slots), v.items)[|v.items|..] == slots
  {
  }

  /** Swap-delete puts the last element in the place of the deleted one and moves no other. */
  lemma SwapDeleteExactly<T>(items: seq<T>, at: nat)
    requires at < |items|
    ensures var r := Apply(Op.DelSwap(at), items);
            && |r| == |items| - 1
            && forall k | 0 <= k < |r| :: r[k] == items[if k == at then |items| - 1 else k]
  {
  }

  ghost function Puts<T>(n: nat, x: T): seq<Op<T>> {
    seq(n, _ => Op.Put(x))
  }

  /** After `n` puts into an empty array the capacity is 0 for none, and otherwise the smallest of 4, 8, 16
      and so on that holds them. */
  lemma {:induction false} PutsCapacity<T>(n: nat, x: T)
    ensures LegalRun([], Puts(n, x))
    ensures var v := Run(View([], 0, 0, 0), Puts(n, x));
            |v.items| == n && v.cap == SmallestPower(n)
  {
    if n > 0 {
      PutsCapacity(n - 1, x);
      assert Puts(n, x) == Puts(n - 1, x) + [Op.Put(x)];
      OnePutMore([], Puts(n - 1, x), x);
      LastPut(View([], 0, 0, 0), Puts(n - 1, x), x);
      PowerGrows(n);
    }
  }

  function SmallestPower(n: nat): nat {
    if n == 0 then 0 else if n <= 4 then 4 else 2 * SmallestPower((n + 1) / 2)
  }

  lemma {:induction false} PowerGrows(n: nat)
    requires n > 0
    ensures n <= SmallestPower(n)
    ensures var cap := SmallestPower(n - 1); SmallestPower(n) == if n > cap then GrownCapacity(cap, n) else cap
  {
    if n > 5 {
      PowerGrows((n + 1) / 2);
      if n % 2 == 1 {
        assert n / 2 == (n + 1) / 2 - 1;
      }
    } else if n == 5 {
      assert SmallestPower(5) == 2 * SmallestPower(3) == 8;
    }
  }

  lemma {:induction false} OnePutMore<T>(items: seq<T>, ops: seq<Op<T>>, x: T)
    requires LegalRun(items, ops)
    ensures LegalRun(items, ops + [Op.Put(x)])
    decreases |ops|
  {
    if ops == [] {
      assert [Op.Put(x)][1..] == [];
      assert ops + [Op.Put(x)] == [Op.Put(x)];
    } else {
      assert (ops + [Op.Put(x)])[1..] == ops[1..] + [Op.Put(x)];
      OnePutMore(Apply(ops[0], items), ops[1..], x);
    }
  }

  lemma {:induction false} LastPut<T>(v: View<T>, ops: seq<Op<T>>, x: T)
    requires LegalRun(v.items, ops) && LegalRun(v.items, ops + [Op.Put(x)])
    ensures Run(v, ops + [Op.Put(x)]) == Step(Run(v, ops), Op.Put(x))
    decreases |ops|
  {
    if ops == [] {
      assert [Op.Put(x)][1..] == [];
      assert ops + [Op.Put(x)] == [Op.Put(x)];
    } else {
      assert (ops + [Op.Put(x)])[1..] == ops[1..] + [Op.Put(x)];
      LastPut(Step(v, ops[0]), ops[1..], x);
    }
  }
}
