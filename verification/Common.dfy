/** Result types shared by every module. */
module Common {

  datatype Option<+T> = None | Some(value: T)

  /** A call that returned a value, or raised the error it carries. */
  datatype Result<+T, +E> = Ok(value: T) | Err(error: E)

  /** Instants are microseconds on one clock. */
  type Instant = int

  /** Every finite set of numbers leaves some number out: a new identifier can always be drawn. */
  lemma UnusedIdExists(used: set<nat>)
    ensures exists n: nat :: n !in used
  {
    var n := UpperBound(used);
    assert n !in used;
  }

  ghost function UpperBound(used: set<nat>): (n: nat)
    ensures forall u <- used :: u < n
  {
    if used == {} then 0
    else
      var u :| u in used;
      var rest := UpperBound(used - {u});
      assert forall v <- used :: v == u || v in used - {u};
      if u < rest then rest else u + 1
  }

  predicate IsSpace(c: char) {
    c == ' ' || '\t' <= c <= '\r' || '\U{1C}' <= c <= '\U{1F}'
  }

  /** str.strip() on ASCII text. */
  function Strip(s: string): string {
    if s == "" then s
    else if IsSpace(s[0]) then Strip(s[1..])
    else if IsSpace(s[|s| - 1]) then Strip(s[..|s| - 1])
    else s
  }

  /** str.lower() on ASCII text. */
  function Lower(s: string): (l: string)
    ensures |l| == |s|
  {
    seq(|s|, i requires 0 <= i < |s| => if 'A' <= s[i] <= 'Z' then s[i] - 'A' + 'a' else s[i])
  }
}
