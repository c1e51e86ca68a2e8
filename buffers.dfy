/**
 * The two collaborators every builder stage carries: the command text (Rust's
 * `String`, grown through the fallible `try_reserve`) and the argument
 * collection (the crate's `ArgumentBuffer`), plus the error a transition returns.
 */
module Buffers {
  import opened Wrappers

  /** Largest capacity a Rust `String` may have; asking for more is a capacity overflow. */
  const ISIZE_MAX: nat := 0x7FFF_FFFF_FFFF_FFFF

  /** `usize` arithmetic wraps modulo 2^64 in a release build. */
  const USIZE_MODULUS: nat := 0x1_0000_0000_0000_0000

  /**
   * Failure of a builder transition: the text buffer could not reserve room,
   * a list that needs one element was empty, or the argument collection
   * refused a value (its own error, passed on unchanged).
   */
  datatype SqlError<+E> = Reserve | ArgumentNotFound | Argument(error: E)

  /**
   * The command buffer. `capacity` is what has been allocated, `limit` the most
   * the allocator will grant, and `unreserved` counts the appends that outgrew
   * the capacity and so made the buffer reallocate without asking first.
   */
  datatype Text = Text(chars: string, capacity: nat, limit: nat, unreserved: nat) {
    ghost predicate Valid() {
      |chars| <= capacity
    }
  }

  /** `String::from`: exactly as much capacity as the literal needs. */
  function FromStr(s: string, limit: nat): (t: Text)
    ensures t.Valid() && t.chars == s && t.capacity == |s| && t.limit == limit && t.unreserved == 0
  {
    Text(s, |s|, limit, 0)
  }

  /** When `try_reserve(n)` succeeds on `t`. */
  predicate Fits(t: Text, n: nat) {
    var required := |t.chars| + n;
    required <= ISIZE_MAX && (required <= t.capacity || required <= t.limit)
  }

  /**
   * `String::try_reserve(n)`: succeeds without change when `n` more bytes fit,
   * grows the capacity to exactly what is needed when the allocator grants it,
   * and fails (capacity overflow or allocation failure) otherwise.
   */
  function TryReserve(t: Text, n: nat): (r: Option<Text>)
    ensures r.Some? <==> Fits(t, n)
    ensures r.Some? ==> && r.value.chars == t.chars && r.value.limit == t.limit
                        && r.value.unreserved == t.unreserved
                        && r.value.capacity >= |t.chars| + n
                        && r.value.capacity >= t.capacity
  {
    var required := |t.chars| + n;
    if required > ISIZE_MAX then None
    else if required <= t.capacity then Some(t)
    else if required <= t.limit then Some(t.(capacity := required))
    else None
  }

  /**
   * `String::push_str(s)`: always succeeds; when `s` does not fit the
   * capacity the buffer reallocates on its own, which `unreserved` records.
   */
  function PushStr(t: Text, s: string): (r: Text)
    ensures r.Valid() && r.chars == t.chars + s && r.limit == t.limit
    ensures |t.chars| + |s| <= t.capacity ==> r.capacity == t.capacity && r.unreserved == t.unreserved
    ensures |t.chars| + |s| > t.capacity ==> r.unreserved == t.unreserved + 1
  {
    var chars := t.chars + s;
    if |chars| <= t.capacity then t.(chars := chars)
    else t.(chars := chars, capacity := |chars|, unreserved := t.unreserved + 1)
  }

  /** Within reserved room, writing `a` and then `b` is writing `a + b`. */
  lemma PushStrTwice(t: Text, a: string, b: string)
    requires |t.chars| + |a| + |b| <= t.capacity
    ensures PushStr(PushStr(t, a), b) == PushStr(t, a + b)
  {
    assert t.chars + a + b == t.chars + (a + b);
  }

  /** Reserve exactly the length of `s`, then write `s`. */
  function Grow(t: Text, s: string): Option<Text> {
    match TryReserve(t, |s|)
    case None => None
    case Some(t') => Some(PushStr(t', s))
  }

  /** Writing what was reserved never makes the buffer reallocate by itself. */
  lemma GrowIsReserved(t: Text, s: string)
    requires Fits(t, |s|)
    ensures Grow(t, s).Some?
    ensures Grow(t, s).value.chars == t.chars + s
    ensures Grow(t, s).value.unreserved == t.unreserved
    ensures Grow(t, s).value.capacity == if |t.chars| + |s| <= t.capacity then t.capacity else |t.chars| + |s|
  {
  }

  /**
   * Two reservations of `a` then `b` succeed exactly when one reservation of
   * `a + b` does, and leave the same buffer behind.
   */
  lemma GrowTwice(t: Text, a: string, b: string)
    ensures Grow(t, a + b) == match Grow(t, a) case None => None case Some(t') => Grow(t', b)
  {
    var l0, l1, l2 := |t.chars|, |t.chars| + |a|, |t.chars| + |a| + |b|;
    assert |a + b| == |a| + |b|;
    if Fits(t, |a|) {
      var t' := Grow(t, a).value;
      assert t'.capacity == if l1 <= t.capacity then t.capacity else l1;
      assert Fits(t', |b|) == Fits(t, |a| + |b|);
      if Fits(t', |b|) {
        assert t'.chars + b == t.chars + (a + b);
      }
    } else {
      assert !Fits(t, |a| + |b|);
    }
  }

  /** The collection refused a value because its fixed capacity is used up. */
  datatype PushError = Full(capacity: nat)

  /**
   * The argument collection: the values bound so far, in order, and the
   * capacity of a fixed-size backing store (`None` for a growable one).
   */
  datatype Args<T> = Args(items: seq<T>, capacity: Option<nat>) {
    /** The number of bound values; the next placeholder is one more. */
    function Count(): nat {
      |items|
    }

    ghost predicate HasRoom(n: nat) {
      capacity.None? || |items| + n <= capacity.value
    }
  }

  /** `ArgumentBuffer::push`: appends the value, or fails when the store is full. */
  function Push<T>(a: Args<T>, v: T): (r: Result<Args<T>, PushError>)
    ensures r.Success? <==> a.HasRoom(1)
    ensures r.Success? ==> r.value.items == a.items + [v] && r.value.capacity == a.capacity
    ensures r.Success? ==> r.value.Count() == a.Count() + 1
    ensures r.Failure? ==> r.error == Full(a.capacity.value)
  {
    match a.capacity
    case Some(c) => if |a.items| < c then Success(a.(items := a.items + [v])) else Failure(Full(c))
    case None => Success(a.(items := a.items + [v]))
  }
}
