/** The order-id window that screens repeated orders, and the byte bitmap behind it. */
module DedupWindow {

  const TA: seq<bv8> := [1, 2, 4, 8, 16, 32, 64, 128]
  const TB: seq<bv8> := [254, 253, 251, 247, 239, 223, 191, 127]

  const ORDER_ID_WINDOW_CAP: nat := 10000

  /** The window as a value: its range, and the residues whose bit is set. */
  datatype Window = Window(min: int, max: int, cap: int, used: set<int>) {
    ghost predicate Valid() { 0 <= min < max && cap == max - min }

    /** Whether `put` returns no error. */
    predicate Accepts(id: int)
      requires Valid()
    {
      id > max || (id > min && id % cap !in used)
    }

    /** The window left behind by `put`. Its receiver is a copy, so the range stays; the
        bitmap is shared, so the bit is kept. */
    function Put(id: int): (w: Window)
      requires Valid()
      ensures w.Valid() && w.min == min && w.max == max && w.cap == cap
    {
      if Accepts(id) then this.(used := used + {id % cap}) else this
    }
  }

  /** A new bitmap is zeroed. */
  predicate InitialBit(r: int) { false }

  function FreshWindow(): (w: Window)
    ensures w.Valid() && w.used == {}
  {
    Window(0, ORDER_ID_WINDOW_CAP, ORDER_ID_WINDOW_CAP, set r | 0 <= r < ORDER_ID_WINDOW_CAP && InitialBit(r))
  }

  function PutAll(w: Window, ids: seq<int>): (w': Window)
    requires w.Valid()
    ensures w'.Valid() && w'.min == w.min && w'.max == w.max && w'.cap == w.cap
  {
    if ids == [] then w else PutAll(w, ids[..|ids| - 1]).Put(ids[|ids| - 1])
  }

  /** What the window screens out: after any history of puts, an id passes exactly when it is
      past the range, or inside it and no earlier id past the lower end left the same residue. */
  lemma {:induction false} AcceptsIff(w: Window, ids: seq<int>, id: int)
    requires w.Valid() && w.used == {}
    ensures PutAll(w, ids).Accepts(id)
            <==> id > w.max
                 || (w.min < id && forall i :: 0 <= i < |ids| && ids[i] > w.min ==> ids[i] % w.cap != id % w.cap)
  {
    if id > w.min {
      UsedAfter(w, ids, id % w.cap);
    }
  }

  lemma {:induction false} UsedAfter(w: Window, ids: seq<int>, r: int)
    requires w.Valid() && w.used == {}
    ensures r in PutAll(w, ids).used <==> exists i :: 0 <= i < |ids| && ids[i] > w.min && ids[i] % w.cap == r
  {
    if ids != [] {
      var n := |ids| - 1;
      UsedAfter(w, ids[..n], r);
      assert forall i :: 0 <= i < n ==> ids[..n][i] == ids[i];
      if r in PutAll(w, ids[..n]).used {
        var i :| 0 <= i < n && ids[..n][i] > w.min && ids[..n][i] % w.cap == r;
        assert ids[i] % w.cap == r;
      }
    }
  }

  /** No id of the range is let through twice. */
  lemma AcceptedOnce(w: Window, before: seq<int>, between: seq<int>, id: int)
    requires w.Valid() && w.used == {} && w.min < id <= w.max
    ensures !PutAll(w, before + [id] + between).Accepts(id)
  {
    AcceptsIff(w, before + [id] + between, id);
    assert (before + [id] + between)[|before|] == id;
  }

  /** Ids past the range are never screened: a repeat passes again. */
  lemma RepeatPassesPastRange(w: Window, ids: seq<int>, id: int)
    requires w.Valid() && id > w.max
    ensures PutAll(w, ids + [id]).Accepts(id)
  {
  }

  function GetBit(b: bv8, i: int): bool
    requires 0 <= i < 8
  {
    b & TA[i] != 0
  }

  function SetBit(b: bv8, i: int, v: bool): (r: bv8)
    requires 0 <= i < 8
    ensures forall j :: 0 <= j < 8 ==> GetBit(r, j) == if j == i then v else GetBit(b, j)
  {
    SetBitAgrees(b, i, v);
    if v then b | TA[i] else b & TB[i]
  }

  lemma SetBitAgrees(b: bv8, i: int, v: bool)
    requires 0 <= i < 8
    ensures var r := if v then b | TA[i] else b & TB[i];
            forall j :: 0 <= j < 8 ==> GetBit(r, j) == if j == i then v else GetBit(b, j)
  {
    var r := if v then b | TA[i] else b & TB[i];
    forall j | 0 <= j < 8 ensures GetBit(r, j) == if j == i then v else GetBit(b, j) {
      MaskPair(i, j);
      MaskDistributes(b, if v then TA[i] else TB[i], TA[j]);
    }
  }

  lemma MaskPair(i: int, j: int)
    requires 0 <= i < 8 && 0 <= j < 8
    ensures TA[i] & TA[j] == if i == j then TA[j] else 0
    ensures TB[i] & TA[j] == if i == j then 0 else TA[j]
    ensures TA[j] != 0
  {
  }

  lemma MaskDistributes(b: bv8, t: bv8, u: bv8)
    ensures (b | t) & u == (b & u) | (t & u)
    ensures (b & t) & u == b & (t & u)
    ensures u != 0 ==> (b & u) | u != 0
    ensures b & 0 == 0 && (b & u) | 0 == b & u
  {
  }

  function Bit(bytes: seq<bv8>, i: int): bool
    requires 0 <= i < 8 * |bytes|
  {
    GetBit(bytes[i / 8], i % 8)
  }

  /** Indices of the set bits of a byte bitmap. */
  ghost function BitsOf(bytes: seq<bv8>): set<int> {
    set i | 0 <= i < 8 * |bytes| && Bit(bytes, i)
  }

  method SetInPlace(m: array<bv8>, i: int, v: bool)
    requires 0 <= i < 8 * m.Length
    modifies m
    ensures BitsOf(m[..]) == if v then old(BitsOf(m[..])) + {i} else old(BitsOf(m[..])) - {i}
  {
    var index, bit := i / 8, i % 8;
    m[index] := SetBit(m[index], bit, v);
    forall k | 0 <= k < 8 * m.Length
      ensures Bit(m[..], k) == if k == i then v else old(Bit(m[..], k))
    {
      assert k == 8 * (k / 8) + k % 8;
    }
  }

  method NewBitmap(l: nat) returns (m: array<bv8>)
    ensures fresh(m) && l <= 8 * m.Length
    ensures BitsOf(m[..]) == {}
  {
    var remainder := l % 8;
    if remainder != 0 {
      remainder := 1;
    }
    m := new bv8[l / 8 + remainder](_ => 0);
  }

  /** The window struct: plain fields and a reference to the bitmap, so that copies of the
      struct share the bits. */
  datatype WindowStruct = WindowStruct(min: int, max: int, cap: int, bitmap: array<bv8>) {
    ghost predicate Valid() { View({}).Valid() && cap <= 8 * bitmap.Length }

    ghost function View(used: set<int>): Window { Window(min, max, cap, used) }

    method Put(val: int) returns (ok: bool)
      requires Valid()
      modifies bitmap
      ensures ok == View(old(BitsOf(bitmap[..]))).Accepts(val)
      ensures View(BitsOf(bitmap[..])) == View(old(BitsOf(bitmap[..]))).Put(val)
    {
      var wMin, wMax := min, max;
      if val <= wMin {
        ok := false;
      } else if val > wMax {
        var delta := val - wMax;
        wMin, wMax := wMin + delta, wMax + delta;
        SetInPlace(bitmap, val % cap, true);
        ok := true;
      } else if GetBit(bitmap[(val % cap) / 8], (val % cap) % 8) {
        assert Bit(bitmap[..], val % cap);
        ok := false;
      } else {
        assert !Bit(bitmap[..], val % cap);
        SetInPlace(bitmap, val % cap, true);
        ok := true;
      }
    }
  }

  method NewWindow(min: int, max: int) returns (w: WindowStruct)
    requires 0 <= min < max
    ensures fresh(w.bitmap) && w.Valid() && BitsOf(w.bitmap[..]) == {}
    ensures w.min == min && w.max == max && w.cap == max - min
  {
    var m := NewBitmap(max - min);
    w := WindowStruct(min, max, max - min, m);
  }
}
