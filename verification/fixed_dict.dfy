/** The fixed dictionaries of the two earlier phases: a table of names and
    words, searched from the front for the first equal name. */
module FixedDict {

  import opened Options

  /** First-match scan of the table from index i on. */
  function LookupFrom<W>(d: seq<(string, W)>, name: string, i: nat): (r: Option<W>)
    requires i <= |d|
    ensures r.Some? <==> exists k :: i <= k < |d| && d[k].0 == name
    ensures r.Some? ==> exists k :: i <= k < |d| && d[k] == (name, r.value)
    decreases |d| - i
  {
    if i == |d| then None
    else if d[i].0 == name then Some(d[i].1)
    else LookupFrom(d, name, i + 1)
  }

  function Lookup<W>(d: seq<(string, W)>, name: string): Option<W> {
    LookupFrom(d, name, 0)
  }
}
