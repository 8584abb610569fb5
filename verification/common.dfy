/** What several modules share. */
module Common {

  datatype Option<T> = None | Some(value: T)

  /** The first position of c, or |s| when there is none. */
  function IndexOf(s: string, c: char): (k: nat)
    ensures k <= |s|
    ensures forall i | 0 <= i < k :: s[i] != c
    ensures k < |s| ==> s[k] == c
  {
    if s == "" || s[0] == c then 0 else 1 + IndexOf(s[1..], c)
  }

  lemma IndexOfAt(s: string, c: char, k: nat)
    requires k < |s| && s[k] == c && forall i | 0 <= i < k :: s[i] != c
    ensures IndexOf(s, c) == k
  {
  }

  /** What follows the first slash, or everything if there is none. */
  function Bare(model: string): string {
    if model == [] then []
    else if model[0] == '/' then model[1..]
    else if '/' in model then Bare(model[1..])
    else model
  }

  /** Only the part before the first slash is dropped. */
  lemma {:induction false} BareSplits(prefix: string, rest: string)
    requires '/' !in prefix
    ensures Bare(prefix + "/" + rest) == rest && Bare(prefix) == prefix
  {
    if prefix == "" {
    } else {
      BareSplits(prefix[1..], rest);
      var s := prefix + "/" + rest;
      assert s[1..] == prefix[1..] + "/" + rest && s[0] == prefix[0];
      assert s[|prefix|] == '/';
    }
  }
}
