/** Go slices over a backing array: append, and removal by shifting the backing array in place. */
module Slices {

  /** append(s, x): in place when the backing array has room, otherwise into a larger one. */
  method Append<T>(a: array<T>, len: nat, x: T) returns (b: array<T>)
    requires len <= a.Length
    modifies a
    ensures b == a || fresh(b)
    ensures len < b.Length
    ensures b[..len] == old(a[..len]) && b[len] == x
    ensures b[..len + 1] == old(a[..len]) + [x]
  {
    if len < a.Length {
      b := a;
      b[len] := x;
    } else {
      b := new T[2 * len + 1](i requires 0 <= i reads a => if i < a.Length then a[i] else x);
    }
  }

  /** append(s[:i], s[i+1:]...): what follows moves down one place and the last slot keeps its value. */
  method Shift<T>(a: array<T>, len: nat, i: nat)
    requires i < len <= a.Length
    modifies a
    ensures a[..len - 1] == old(a[..i]) + old(a[i + 1..len])
    ensures forall k :: len - 1 <= k < a.Length ==> a[k] == old(a[k])
  {
    forall k | i <= k < len - 1 {
      a[k] := a[k + 1];
    }
  }

  /** copy(a[at:], b) */
  method Copy<T>(a: array<T>, at: nat, b: seq<T>)
    requires at + |b| <= a.Length
    modifies a
    ensures a[..at + |b|] == old(a[..at]) + b
    ensures forall k :: at + |b| <= k < a.Length ==> a[k] == old(a[k])
  {
    forall k | 0 <= k < |b| {
      a[at + k] := b[k];
    }
  }

  /** Where place `k` of the shortened sequence was before place `i` was removed. */
  function OldPlace(i: nat, k: nat): nat {
    if k < i then k else k + 1
  }
}
