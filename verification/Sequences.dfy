/** Regrouping concatenations. */
module Sequences {

  lemma Assoc<T>(a: seq<T>, b: seq<T>, c: seq<T>)
    ensures a + (b + c) == (a + b) + c
  {
  }

  lemma Extend<T>(whole: seq<T>, prev: seq<T>, prefix: seq<T>, init: seq<T>, last: seq<T>)
    requires prev == prefix + init && whole == prev + last
    ensures whole == prefix + (init + last)
  {
  }
}
