/** Facts about sequences in general that the string and list proofs lean on: taking a
    sequence apart at its head, and regrouping concatenations. */
module Seqs {

  /** A non-empty sequence is its head in front of its tail. */
  lemma HeadTail<T>(s: seq<T>)
    requires |s| >= 1
    ensures s == [s[0]] + s[1..]
  {
  }

  /** Dropping the head put in front gives the sequence back. */
  lemma ConsTail<T>(x: T, s: seq<T>)
    ensures ([x] + s)[1..] == s
  {
  }

  /** Regrouping a concatenation that starts with one element. */
  lemma ConsAppendAssoc<T>(x: T, a: seq<T>, y: T, b: seq<T>)
    ensures [x] + a + [y] + b == [x] + (a + [y] + b)
  {
  }

  /** One element in front of a pair is a triple. */
  lemma ConsPair<T>(x: T, y: T, z: T)
    ensures [x] + [y, z] == [x, y, z]
  {
  }

  /** Concatenation with one element in front is associative. */
  lemma SeqConsAssoc<T>(x: T, s: seq<T>, t: seq<T>)
    ensures [x] + (s + t) == ([x] + s) + t
  {
  }
}
