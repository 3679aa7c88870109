/** Target-label resolution in `_load_model`: the model's `id2label` entries
    are scanned in order and the first whose lower-cased label equals the
    keyword gives the target class id; no match is a `ValueError`. */
module Labels {
  import opened Wrappers

  /** One `id2label` entry, in the mapping's iteration order. */
  datatype Label = Label(id: nat, name: string)

  /** The error `_load_model` raises when no label matches. */
  datatype LookupError = ClassNotFound(keyword: string)

  /** The model's ASCII lower-casing of one character, standing for
      `label.lower()`: only `A`-`Z` change. */
  function LowerChar(c: char): (r: char)
    ensures !('A' <= r <= 'Z')
    ensures !('A' <= c <= 'Z') ==> r == c
    ensures 'A' <= c <= 'Z' ==> 'a' <= r <= 'z' && r as int - 'a' as int == c as int - 'A' as int
  {
    if 'A' <= c <= 'Z' then (c as int - 'A' as int + 'a' as int) as char else c
  }

  /** The model's ASCII lower-casing of a label, standing for `label.lower()`:
      `LowerChar` on each character. */
  function Lower(s: string): (r: string)
    ensures |r| == |s|
    ensures forall i :: 0 <= i < |s| ==> r[i] == LowerChar(s[i])
  {
    seq(|s|, i requires 0 <= i < |s| => LowerChar(s[i]))
  }

  /** `label.lower() == keyword`. */
  predicate Matches(l: Label, keyword: string) {
    Lower(l.name) == keyword
  }

  /** The `for … break` search: the id of the first matching entry, or
      `ClassNotFound` when there is none. */
  function Resolve(id2label: seq<Label>, keyword: string): (r: Result<nat, LookupError>)
    ensures r.Err? <==> forall i :: 0 <= i < |id2label| ==> !Matches(id2label[i], keyword)
    ensures r.Err? ==> r.error == ClassNotFound(keyword)
    ensures r.Ok? ==> exists i :: 0 <= i < |id2label| && IsFirstMatch(id2label, keyword, i)
                                   && id2label[i].id == r.value
    decreases |id2label|
  {
    if |id2label| == 0 then Err(ClassNotFound(keyword))
    else if Matches(id2label[0], keyword) then
      assert IsFirstMatch(id2label, keyword, 0);
      Ok(id2label[0].id)
    else
      var r := Resolve(id2label[1..], keyword);
      if r.Ok? then
        var i :| 0 <= i < |id2label| - 1 && IsFirstMatch(id2label[1..], keyword, i)
                 && id2label[1..][i].id == r.value;
        assert IsFirstMatch(id2label, keyword, i + 1);
        r
      else
        assert forall i :: 0 < i < |id2label| ==> id2label[i] == id2label[1..][i - 1];
        r
  }

  /** Entry `i` matches and no earlier entry does. */
  predicate IsFirstMatch(id2label: seq<Label>, keyword: string, i: nat)
    requires i < |id2label|
  {
    Matches(id2label[i], keyword) && forall j :: 0 <= j < i ==> !Matches(id2label[j], keyword)
  }

  /** The label comparison ignores case: two label tables that differ only in
      the case of their names resolve alike. */
  lemma ResolveIgnoresCase(a: seq<Label>, b: seq<Label>, keyword: string)
    requires |a| == |b|
    requires forall i :: 0 <= i < |a| ==> a[i].id == b[i].id && Lower(a[i].name) == Lower(b[i].name)
    ensures Resolve(a, keyword) == Resolve(b, keyword)
    decreases |a|
  {
  }

  /** A keyword that contains an upper-case letter never matches, since the
      label side is lowered and the keyword side is not. */
  lemma UpperCaseKeywordNeverResolves(id2label: seq<Label>, keyword: string, k: nat)
    requires k < |keyword| && 'A' <= keyword[k] <= 'Z'
    ensures Resolve(id2label, keyword).Err?
  {
  }

  /** The first match wins, whatever its case: "GO" at id 4 is chosen over
      "go" at id 9. */
  lemma FirstMatchWins()
    ensures Resolve([Label(2, "yes"), Label(4, "GO"), Label(9, "go")], "go") == Ok(4)
  {
  }
}
