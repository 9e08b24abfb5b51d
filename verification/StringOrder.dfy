/** The byte order SQLite compares text by, character for character. */
module StringOrder {

  predicate Less(a: string, b: string) {
    if b == "" then false
    else if a == "" then true
    else if a[0] == b[0] then Less(a[1..], b[1..])
    else a[0] < b[0]
  }

  lemma {:induction false} LessTransitive(a: string, b: string, c: string)
    requires Less(a, b) && Less(b, c)
    ensures Less(a, c)
  {
    if a != "" && a[0] == b[0] && b[0] == c[0] {
      LessTransitive(a[1..], b[1..], c[1..]);
    }
  }

  /** Exactly one of: before, after, the same. */
  lemma {:induction false} LessTrichotomy(a: string, b: string)
    ensures Less(a, b) <==> a != b && !Less(b, a)
  {
    if a != "" && b != "" {
      assert a == [a[0]] + a[1..] && b == [b[0]] + b[1..];
      if a[0] == b[0] {
        LessTrichotomy(a[1..], b[1..]);
        assert a == b <==> a[1..] == b[1..];
      }
    }
  }
}
