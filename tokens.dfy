/** The chip lists of the dialogs (tags, a case study's tech stack): a token
    typed into an input is added after trimming when it is non-empty and not
    there yet, and a chip's remove button drops every copy of its value. */
module Tokens {
  import opened Util
  import opened Text

  /** `input.trim() && !list.includes(input.trim())`. */
  predicate Accepts(list: seq<string>, input: string) {
    Trim(input) != "" && Trim(input) !in list
  }

  /** The list after `add*`: the trimmed input appended when accepted. */
  function AddToken(list: seq<string>, input: string): (r: seq<string>)
    ensures Accepts(list, input) ==> r == list + [Trim(input)]
    ensures !Accepts(list, input) ==> r == list
  {
    if Accepts(list, input) then list + [Trim(input)] else list
  }

  /** The input box after `add*`: cleared exactly when the token was taken. */
  function InputAfterAdd(list: seq<string>, input: string): (r: string)
    ensures r == "" || r == input
    ensures r == "" <==> Accepts(list, input) || input == ""
  {
    if Accepts(list, input) then "" else input
  }

  /** The list after `remove*(t)`: `list.filter((x) => x !== t)`. */
  function RemoveToken(list: seq<string>, t: string): (r: seq<string>)
    ensures t !in r
    ensures IsSubsequence(r, list)
    ensures forall i :: 0 <= i < |list| && list[i] != t ==> list[i] in r
    ensures forall i :: 0 <= i < |r| ==> r[i] in list
  {
    FilterIsSubsequence(list, Differs(t));
    RemoveValue(list, t)
  }

  /** Every token in the list is non-empty and has no surrounding white space. */
  ghost predicate Clean(list: seq<string>) {
    forall i :: 0 <= i < |list| ==> list[i] != "" && Trim(list[i]) == list[i]
  }

  // ---------------------------------------------------------------- lemmas

  /** Adding never introduces a duplicate, an empty token or a padded one. */
  lemma AddKeepsListWellFormed(list: seq<string>, input: string)
    requires NoDuplicates(list) && Clean(list)
    ensures NoDuplicates(AddToken(list, input)) && Clean(AddToken(list, input))
  {
    if Accepts(list, input) {
      var t := Trim(input);
      SnocNoDuplicates(list, t);
      TrimIdempotent(input);
      var r := list + [t];
      assert r == AddToken(list, input);
      forall i | 0 <= i < |r| ensures r[i] != "" && Trim(r[i]) == r[i] {
        if i < |list| {
          assert r[i] == list[i];
        } else {
          assert r[i] == t;
        }
      }
    }
  }

  /** A non-blank input always ends up in the list, new or not. */
  lemma AddedTokenPresent(list: seq<string>, input: string)
    requires Trim(input) != ""
    ensures Trim(input) in AddToken(list, input)
  {
    if Accepts(list, input) {
      assert AddToken(list, input)[|list|] == Trim(input);
    }
  }

  /** Adding the same input a second time changes nothing. */
  lemma AddTwice(list: seq<string>, input: string)
    ensures AddToken(AddToken(list, input), input) == AddToken(list, input)
  {
    if Trim(input) != "" {
      AddedTokenPresent(list, input);
    }
  }

  /** Removing a token that was just added gives back the original list. */
  lemma AddThenRemove(list: seq<string>, input: string)
    requires Accepts(list, input)
    ensures RemoveToken(AddToken(list, input), Trim(input)) == list
  {
    var t := Trim(input);
    FilterAppend(list, [t], Differs(t));
    FilterAll(list, Differs(t));
    assert Filter([t], Differs(t)) == [];
  }

  /** Removing keeps a well-formed list well formed. */
  lemma RemoveKeepsListWellFormed(list: seq<string>, t: string)
    requires NoDuplicates(list) && Clean(list)
    ensures NoDuplicates(RemoveToken(list, t)) && Clean(RemoveToken(list, t))
  {
    FilterNoDuplicates(list, Differs(t));
    var r := RemoveToken(list, t);
    forall i | 0 <= i < |r| ensures r[i] != "" && Trim(r[i]) == r[i] {
      var j :| 0 <= j < |list| && list[j] == r[i];
    }
  }
}
