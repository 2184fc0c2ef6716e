/** Sizes of finite sets. */
module Sets {
  lemma SizeOfPart<T>(w: set<T>, part: set<T>)
    requires part <= w
    ensures |w - part| == |w| - |part|
  {
  }

  lemma SizeAtMost<T>(a: set<T>, b: set<T>)
    requires a <= b
    ensures |a| <= |b| && (|a| == |b| ==> a == b)
  {
    SizeOfPart(b, a);
    assert |b - a| == 0 ==> b - a == {};
    assert b == a + (b - a);
  }
}
