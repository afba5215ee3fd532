/**
 The dynamic array of vector.c: what its calls do to the sequence of items, and what
 its growing and shrinking cost. Items are pointers, and the null pointer is 0.
 */
module Vector {
  import opened MachineInt

  const NULL: nat := 0

  /** The calls that change a vector. Indices are C integers and may be negative. */
  datatype Op = Add(x: nat) | Set(i: int, x: nat) | Delete(i: int) | Insert(i: int, x: nat) | Clear {

    predicate InRange(s: seq<nat>) {
      match this
      case Set(i, _) => 0 <= i < |s|
      case Delete(i) => 0 <= i < |s|
      case Insert(i, _) => 0 <= i < |s|
      case _ => true
    }

    /** What the call does to the items; a call with a bad index does nothing. */
    function Apply(s: seq<nat>): seq<nat> {
      if !InRange(s) then s else
      match this
      case Add(x) => s + [x]
      case Set(i, x) => s[i := x]
      case Delete(i) => s[..i] + s[i + 1..]
      case Insert(i, x) => s[..i] + [x] + s[i..]
      case Clear => []
    }

    /** Setting an item never reallocates, so it does not count among the calls that pay. */
    function Pays(): nat {
      if Set? then 0 else 1
    }
  }

  /**
   What is where after a call with an index in range: one item has changed, gone or come, the others
   keep their order.
   */
  lemma ItemsAfter(s: seq<nat>, op: Op, k: nat)
    requires op.InRange(s) && k < |op.Apply(s)|
    ensures |op.Apply(s)| == match op
            case Add(_) => |s| + 1
            case Set(_, _) => |s|
            case Delete(_) => |s| - 1
            case Insert(_, _) => |s| + 1
            case Clear => 0
    ensures op.Apply(s)[k] == match op
            case Add(x) => if k == |s| then x else s[k]
            case Set(i, x) => if k == i then x else s[k]
            case Delete(i) => if k < i then s[k] else s[k + 1]
            case Insert(i, x) => if k < i then s[k] else if k == i then x else s[k - 1]
            case Clear => 0
  {
  }

  /** Deleting what was just inserted, or setting back what was set, restores the items. */
  lemma Undone(s: seq<nat>, i: nat, x: nat)
    requires i < |s|
    ensures Delete(i).Apply(Insert(i, x).Apply(s)) == s
    ensures Set(i, s[i]).Apply(Set(i, x).Apply(s)) == s
  {
    var t := s[..i] + [x] + s[i..];
    assert t[..i] == s[..i] && t[i + 1..] == s[i..];
    assert s[..i] + s[i..] == s;
  }

  /** Putting back what was deleted restores the items too, unless it was the last one: nothing is inserted behind. */
  lemma PutBack(s: seq<nat>, i: nat)
    requires i < |s|
    ensures Insert(i, s[i]).Apply(Delete(i).Apply(s)) == s <==> i < |s| - 1
  {
    var t := s[..i] + s[i + 1..];
    if i < |s| - 1 {
      assert t[..i] == s[..i] && t[i..] == s[i + 1..];
      assert s[..i] + [s[i]] + s[i + 1..] == s;
    }
  }

  // Cost

  /** Sizes, and how many live items reallocations have moved so far. */
  datatype Cost = Cost(size: nat, capacity: nat, moved: nat) {

    predicate Ok() {
      1 <= capacity && size <= capacity
    }

    /** vector_resize, when the live items fit the new capacity. */
    function Resize(wanted: nat): Cost {
      var c := if wanted < 1 then 1 else wanted;
      if c == capacity then this else Cost(size, c, moved + size)
    }

    /** Room for one more item: the capacity doubles when it is used up. */
    function Room(): Cost {
      if capacity == size then Resize(capacity * 2) else this
    }

    /** After a deletion: the capacity halves when a quarter of it is left in use. */
    function Trim(): Cost {
      if size > 0 && size == capacity / 4 then Resize(capacity / 2) else this
    }

    function Step(op: Op, inRange: bool, initial: nat): Cost {
      if !inRange then this else
      match op
      case Add(_) => Room().Grown()
      case Insert(_, _) => Room().Grown()
      case Delete(_) => if size == 0 then this else this.(size := size - 1).Trim()
      case Set(_, _) => this
      case Clear => this.(size := 0).Resize(initial)
    }

    function Grown(): Cost {
      this.(size := size + 1)
    }

    /** What must have been saved up by the calls so far: enough for the next doubling or halving. */
    function Credit(): nat
      requires Ok()
    {
      if 2 * size >= capacity then 2 * size - capacity else Min(2 * size, capacity / 2 - size)
    }
  }

  /** Any call keeps the sizes in order, and moves no more than two items beyond what it takes from the credit. */
  lemma CreditPays(c: Cost, op: Op, inRange: bool, initial: nat)
    requires c.Ok() && initial >= 1
    ensures var d := c.Step(op, inRange, initial);
            d.Ok() && d.moved - c.moved + d.Credit() <= c.Credit() + 2 * op.Pays()
  {
    if op.Delete? && c.size > 0 {
      TrimPays(c);
    }
  }

  lemma TrimPays(c: Cost)
    requires c.Ok() && c.size > 0
    ensures var d := c.(size := c.size - 1).Trim();
            d.Ok() && d.moved - c.moved + d.Credit() <= c.Credit() + 2
  {
    var q := c.capacity / 4;
    if c.size - 1 > 0 && c.size - 1 == q {
      assert c.capacity / 2 == 2 * q || c.capacity / 2 == 2 * q + 1;
      assert c.(size := c.size - 1).Trim().Credit() == 0;
    }
  }

  /** The items after a script of calls. */
  function Contents(script: seq<Op>): seq<nat> {
    if |script| == 0 then []
    else script[|script| - 1].Apply(Contents(script[..|script| - 1]))
  }

  /** The cost of a script on a vector of the given initial capacity. */
  function CostOf(script: seq<Op>, initial: nat): Cost {
    if |script| == 0 then Cost(0, initial, 0)
    else
      var before, op := script[..|script| - 1], script[|script| - 1];
      CostOf(before, initial).Step(op, op.InRange(Contents(before)), initial)
  }

  /** How many calls of a script may reallocate. */
  function Paying(script: seq<Op>): nat {
    if |script| == 0 then 0 else Paying(script[..|script| - 1]) + script[|script| - 1].Pays()
  }

  lemma SizeFollows(c: Cost, op: Op, items: seq<nat>, initial: nat)
    requires c.size == |items|
    ensures c.Step(op, op.InRange(items), initial).size == |op.Apply(items)|
  {
  }

  /** Over every script, reallocations move at most two items per call that may reallocate. */
  lemma {:induction false} AmortisedBound(script: seq<Op>, initial: nat)
    requires initial >= 1
    ensures var c := CostOf(script, initial);
            && c.Ok() && c.size == |Contents(script)|
            && c.moved + c.Credit() <= 2 * Paying(script)
    decreases |script|
  {
    if |script| > 0 {
      var before, op := script[..|script| - 1], script[|script| - 1];
      AmortisedBound(before, initial);
      SizeFollows(CostOf(before, initial), op, Contents(before), initial);
      CreditPays(CostOf(before, initial), op, op.InRange(Contents(before)), initial);
    }
  }

  function Adds(n: nat): (script: seq<Op>)
    ensures |script| == n
  {
    seq(n, _ => Add(NULL))
  }

  lemma OneMoreAdd(n: nat, initial: nat)
    ensures CostOf(Adds(n + 1), initial) == CostOf(Adds(n), initial).Room().Grown()
    ensures Paying(Adds(n + 1)) == Paying(Adds(n)) + 1
  {
    assert Adds(n + 1)[..n] == Adds(n);
  }

  lemma AddFits(n: nat, initial: nat, c: Cost)
    requires c == CostOf(Adds(n), initial) && c.size < c.capacity
    ensures CostOf(Adds(n + 1), initial) == c.(size := c.size + 1) && Paying(Adds(n + 1)) == Paying(Adds(n)) + 1
  {
    OneMoreAdd(n, initial);
  }

  /** Adds that fit the capacity move nothing. */
  lemma {:induction false} AddsThatFit(n: nat, m: nat, initial: nat, c: Cost)
    requires n <= m && c == CostOf(Adds(n), initial) && c.size + (m - n) <= c.capacity
    ensures CostOf(Adds(m), initial) == c.(size := c.size + (m - n))
    ensures Paying(Adds(m)) == Paying(Adds(n)) + (m - n)
    decreases m - n
  {
    if n < m {
      AddFits(n, initial, c);
      AddsThatFit(n + 1, m, initial, c.(size := c.size + 1));
    }
  }

  /** The array has p + 1 items after one more add than a power of two. */
  ghost predicate JustDoubled(p: nat) {
    p >= 1 && CostOf(Adds(p + 1), 1) == Cost(p + 1, 2 * p, 2 * p - 1) && Paying(Adds(p + 1)) == p + 1
  }

  lemma DoublesAgain(p: nat)
    requires JustDoubled(p)
    ensures JustDoubled(2 * p)
  {
    AddsThatFit(p + 1, 2 * p, 1, Cost(p + 1, 2 * p, 2 * p - 1));
    OneMoreAdd(2 * p, 1);
    RoomDoubles(2 * p, 2 * p - 1);
  }

  lemma RoomDoubles(size: nat, moved: nat)
    requires size >= 1
    ensures Cost(size, size, moved).Room() == Cost(size, 2 * size, moved + size)
  {
  }

  lemma {:induction false} JustDoubledAtPowers(k: nat)
    ensures JustDoubled(Pow2(k))
    decreases k
  {
    if k == 0 {
      OneMoreAdd(0, 1);
      OneMoreAdd(1, 1);
    } else {
      JustDoubledAtPowers(k - 1);
      DoublesAgain(Pow2(k - 1));
    }
  }

  /** No smaller factor would do: 2^k + 1 adds to an array of one move all but three of the allowed items. */
  lemma BoundIsReached(k: nat)
    ensures var script := Adds(Pow2(k) + 1); CostOf(script, 1).moved == 2 * Paying(script) - 3
  {
    JustDoubledAtPowers(k);
  }

  // The code

  class Vec {
    var items: array<nat>
    var initialCapacity: nat
    var capacity: nat
    var size: nat
    /** Live items moved by reallocations. */
    ghost var moved: nat

    ghost predicate Valid()
      reads this
    {
      1 <= initialCapacity && items.Length == capacity && Costs().Ok()
    }

    ghost function Costs(): Cost
      reads this
    {
      Cost(size, capacity, moved)
    }

    ghost function Items(): (s: seq<nat>)
      reads this, items
      requires Valid()
      ensures |s| == size
    {
      items[..size]
    }

    /** vector_init. */
    constructor (wanted: int)
      ensures Valid() && fresh(items)
      ensures Items() == [] && Costs() == Cost(0, initialCapacity, 0)
      ensures initialCapacity == if wanted <= 0 then 4 else wanted
    {
      var c := if wanted <= 0 then 4 else wanted;
      initialCapacity, capacity, size, moved := c, c, 0, 0;
      items := new nat[c];
    }

    /** vector_resize: realloc keeps the items that fit. */
    method Resize(wanted: nat) returns (r: int)
      requires Valid() && size <= wanted
      modifies this`items, this`capacity, this`moved
      ensures Valid() && (items == old(items) || fresh(items))
      ensures Items() == old(Items()) && Costs() == old(Costs()).Resize(wanted) && r == capacity
    {
      var c := if wanted < 1 then 1 else wanted;
      if capacity == c { return capacity; }
      var larger := new nat[c];
      for k := 0 to if c < capacity then c else capacity
        modifies larger
        invariant forall j :: 0 <= j < k ==> larger[j] == items[j]
      {
        larger[k] := items[k];
      }
      assert larger[..size] == items[..size];
      items := larger;
      capacity := c;
      moved := moved + size;
      return capacity;
    }

    /** vector_add. */
    method Add(item: nat) returns (r: int)
      requires Valid()
      modifies this`items, this`capacity, this`size, this`moved, items
      ensures Valid() && (items == old(items) || fresh(items))
      ensures Items() == Op.Add(item).Apply(old(Items())) && r == size
      ensures Costs() == old(Costs()).Step(Op.Add(item), true, initialCapacity)
    {
      if capacity == size {
        var _ := Resize(capacity * 2);
      }
      items[size] := item;
      size := size + 1;
      return size;
    }

    /** vector_set. */
    method Set(index: int, item: nat) returns (r: int)
      requires Valid()
      modifies items
      ensures Valid() && Items() == Op.Set(index, item).Apply(old(Items()))
      ensures r == if 0 <= index < size then size else -1
    {
      if index >= 0 && index < size {
        items[index] := item;
        return size;
      }
      return -1;
    }

    /** vector_get. */
    method Get(index: int) returns (item: nat)
      requires Valid()
      ensures item == if 0 <= index < size then Items()[index] else 0
    {
      if index >= 0 && index < size {
        return items[index];
      }
      return NULL;
    }

    /** The loop of vector_delete: items above the index move down, the slot they leave is null. */
    method CloseGap(index: nat)
      requires Valid() && index < size
      modifies items
      ensures Valid() && Items() == Op.Delete(index).Apply(old(Items())) + [NULL]
    {
      ghost var s := Items();
      items[index] := NULL;
      for i := index to size - 1
        invariant GapAt(s, Items(), index, i)
      {
        ghost var before: seq<nat> := Items();
        items[i] := items[i + 1];
        items[i + 1] := NULL;
        assert Items() == before[i := before[i + 1]][i + 1 := NULL];
      }
      GapClosed(s, Items(), index);
    }

    /** The items between the two positions have moved down, and the gap is at the second one. */
    static ghost predicate GapAt(s: seq<nat>, t: seq<nat>, index: nat, i: nat) {
      && index <= i < |s| == |t| && t[i] == NULL
      && (forall j :: 0 <= j < index ==> t[j] == s[j])
      && (forall j :: index <= j < i ==> t[j] == s[j + 1])
      && (forall j :: i < j < |s| ==> t[j] == s[j])
    }

    static lemma GapClosed(s: seq<nat>, t: seq<nat>, index: nat)
      requires |s| > 0 && GapAt(s, t, index, |s| - 1)
      ensures t == s[..index] + s[index + 1..] + [NULL]
    {
    }

    /** vector_delete. */
    method Delete(index: int) returns (r: int)
      requires Valid()
      modifies this`items, this`capacity, this`size, this`moved, items
      ensures Valid() && (items == old(items) || fresh(items))
      ensures Items() == Op.Delete(index).Apply(old(Items()))
      ensures r == if 0 <= index < old(size) then size else -1
      ensures Costs() == old(Costs()).Step(Op.Delete(index), 0 <= index < old(size), initialCapacity)
    {
      if index < 0 || index > size - 1 { return -1; }
      ghost var after := Op.Delete(index).Apply(Items());
      CloseGap(index);
      size := size - 1;
      assert Items() == (after + [NULL])[..size];
      if size > 0 && size == capacity / 4 {
        var _ := Resize(capacity / 2);
      }
      return size;
    }

    /** The loop of vector_insert: items from the index on move up. */
    method OpenGap(index: nat)
      requires Valid() && index < size < capacity
      modifies items
      ensures Valid() && items[..index] == old(Items())[..index] && items[index + 1..size + 1] == old(Items())[index..]
    {
      ghost var s := Items();
      var i := size;
      while i > index
        invariant index <= i <= size
        invariant forall j :: 0 <= j < i ==> items[j] == s[j]
        invariant forall j :: i < j <= size ==> items[j] == s[j - 1]
      {
        items[i] := items[i - 1];
        i := i - 1;
      }
      assert items[..index] == s[..index];
      assert forall k :: 0 <= k < size - index ==> items[index + 1..size + 1][k] == s[index..][k];
    }

    /** vector_insert, which cannot insert behind the last item. */
    method Insert(index: int, item: nat) returns (r: int)
      requires Valid()
      modifies this`items, this`capacity, this`size, this`moved, items
      ensures Valid() && (items == old(items) || fresh(items))
      ensures Items() == Op.Insert(index, item).Apply(old(Items()))
      ensures r == if 0 <= index < old(size) then size else -1
      ensures Costs() == old(Costs()).Step(Op.Insert(index, item), 0 <= index < old(size), initialCapacity)
    {
      if index < 0 || index > size - 1 { return -1; }
      if capacity == size {
        var _ := Resize(capacity * 2);
      }
      PutBefore(index, item);
      return size;
    }

    method PutBefore(index: nat, item: nat)
      requires Valid() && index < size < capacity
      modifies this`size, items
      ensures Valid() && size == old(size) + 1
      ensures Items() == old(Items())[..index] + [item] + old(Items())[index..]
    {
      ghost var s := Items();
      OpenGap(index);
      items[index] := item;
      size := size + 1;
      assert items[..index] == s[..index] && items[index + 1..size] == s[index..];
      assert Items() == items[..index] + [items[index]] + items[index + 1..size];
    }

    /** vector_clear. */
    method Clear() returns (r: int)
      requires Valid()
      modifies this`items, this`capacity, this`size, this`moved, items
      ensures Valid() && (items == old(items) || fresh(items))
      ensures Items() == [] && r == capacity == initialCapacity
      ensures Costs() == old(Costs()).Step(Op.Clear, true, initialCapacity)
    {
      for i := 0 to if size == 0 then 0 else size - 1
        modifies items
      {
        items[i] := NULL;
      }
      size := 0;
      r := Resize(initialCapacity);
    }

    /** One call of a script. */
    method Call(op: Op)
      requires Valid()
      modifies this`items, this`capacity, this`size, this`moved, items
      ensures Valid() && (items == old(items) || fresh(items))
      ensures Items() == op.Apply(old(Items()))
      ensures Costs() == old(Costs()).Step(op, op.InRange(old(Items())), initialCapacity)
    {
      match op
      case Add(x) => var _ := Add(x);
      case Set(i, x) => var _ := Set(i, x);
      case Delete(i) => var _ := Delete(i);
      case Insert(i, x) => var _ := Insert(i, x);
      case Clear => var _ := Clear();
    }
  }

  /** A new vector after a script of calls: the items are those of the sequence operations, the moves are bounded. */
  method RunScript(script: seq<Op>, wanted: int) returns (v: Vec)
    ensures fresh(v) && v.Valid() && v.Items() == Contents(script)
    ensures v.Costs() == CostOf(script, v.initialCapacity) && v.moved <= 2 * Paying(script)
  {
    v := new Vec(wanted);
    for k := 0 to |script|
      invariant fresh(v) && fresh(v.items) && v.Valid()
      invariant v.Items() == Contents(script[..k]) && v.Costs() == CostOf(script[..k], v.initialCapacity)
    {
      assert script[..k + 1][..k] == script[..k];
      v.Call(script[k]);
    }
    assert script[..|script|] == script;
    AmortisedBound(script, v.initialCapacity);
  }
}
