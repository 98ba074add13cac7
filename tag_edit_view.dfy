/** The tag editing dialog (views/tag_edit_view.py): edits a copy of the tag list and, on OK,
    brings the store's tags in line with it through the controller. */
module TagEditing {
  import opened Common
  import opened Schedule
  import opened TaskControl

  /** The characters `str.strip()` removes, restricted to ASCII (space, tab, the line and
      page breaks, and the four separator controls 0x1c to 0x1f). */
  predicate IsSpace(c: char) {
    c == ' ' || c == '\t' || c == '\n' || c == '\r' || c == '\U{0B}' || c == '\U{0C}'
    || c == '\U{1C}' || c == '\U{1D}' || c == '\U{1E}' || c == '\U{1F}'
  }

  /** The number of whitespace characters `s` starts with. */
  function LeadingSpace(s: string): (n: nat)
    ensures n <= |s|
    ensures forall k :: 0 <= k < n ==> IsSpace(s[k])
    ensures n < |s| ==> !IsSpace(s[n])
  {
    if s != [] && IsSpace(s[0]) then 1 + LeadingSpace(s[1..]) else 0
  }

  /** The number of whitespace characters `s` ends with. */
  function TrailingSpace(s: string): (n: nat)
    ensures n <= |s|
    ensures forall k :: |s| - n <= k < |s| ==> IsSpace(s[k])
    ensures n < |s| ==> !IsSpace(s[|s| - n - 1])
  {
    if s != [] && IsSpace(s[|s| - 1]) then 1 + TrailingSpace(s[..|s| - 1]) else 0
  }

  /** `str.strip()`: the text between the leading and the trailing whitespace. */
  function Strip(s: string): (r: string)
    ensures |r| <= |s|
    ensures r == [] || (!IsSpace(r[0]) && !IsSpace(r[|r| - 1]))
    ensures r == [] <==> forall k :: 0 <= k < |s| ==> IsSpace(s[k])
    ensures exists i, j ::
      && 0 <= i <= j <= |s| && r == s[i..j]
      && (forall k :: 0 <= k < i ==> IsSpace(s[k]))
      && (forall k :: j <= k < |s| ==> IsSpace(s[k]))
  {
    var lead := LeadingSpace(s);
    if lead == |s| then
      assert s[|s|..|s|] == [];
      []
    else
      var trail := TrailingSpace(s);
      assert trail < |s| - lead;
      var r := s[lead..|s| - trail];
      assert r == s[lead..|s| - trail];
      r
  }

  /** Stripping twice strips nothing more. */
  lemma StripIdempotent(s: string)
    ensures Strip(Strip(s)) == Strip(s)
  {
    var r := Strip(s);
    if r != [] {
      assert LeadingSpace(r) == 0;
      assert TrailingSpace(r) == 0;
    }
  }

  /** Surrounding whitespace is dropped and inner text kept: "  Work  " strips to "Work". */
  lemma StripExample()
    ensures Strip("  Work\t") == "Work"
    ensures Strip(" \n ") == ""
  {
    assert LeadingSpace("  Work\t") == 2;
    assert TrailingSpace("  Work\t") == 1;
    assert LeadingSpace(" \n ") == 3;
  }

  /** The tags of `known` that `dialog` still holds, in the order of `known`. */
  function Kept(known: seq<string>, dialog: seq<string>): (r: seq<string>)
    ensures forall x :: x in r <==> x in known && x in dialog
    ensures IsSubsequence(r, known)
  {
    if known == [] then []
    else
      var rest := Kept(known[1..], dialog);
      assert forall x :: x in known <==> x == known[0] || x in known[1..];
      if known[0] in dialog then
        assert ([known[0]] + rest)[1..] == rest;
        [known[0]] + rest
      else rest
  }

  /** A tag the dialog still holds survives as often as `known` holds it; any other tag is
      gone. With `IsSubsequence(Kept(known, dialog), known)` this fixes the result. */
  lemma {:induction false} KeptCounts(known: seq<string>, dialog: seq<string>)
    ensures forall x :: multiset(Kept(known, dialog))[x] == if x in dialog then multiset(known)[x] else 0
  {
    if known != [] {
      KeptCounts(known[1..], dialog);
      assert known == [known[0]] + known[1..];
      assert multiset(known) == multiset{known[0]} + multiset(known[1..]);
    }
  }

  /** The tags of `dialog` that `known` lacks, each once, in the order they first occur in
      `dialog`: what the first loop of `save_tags` appends to the store. */
  function NewTags(dialog: seq<string>, known: seq<string>): (r: seq<string>)
    ensures forall x :: x in r <==> x in dialog && x !in known
    ensures NoDuplicates(r)
    ensures IsSubsequence(r, dialog)
    decreases |dialog|
  {
    if dialog == [] then []
    else
      var front := dialog[..|dialog| - 1];
      var last := dialog[|dialog| - 1];
      var previous := NewTags(front, known);
      assert dialog == front + [last];
      SubsequenceSnoc(previous, front, last);
      if last in known || last in previous then previous else previous + [last]
  }

  /** The new tags come in the order of their first occurrence in the dialog. */
  lemma {:induction false} NewTagsFirstOccurrence(dialog: seq<string>, known: seq<string>)
    ensures forall i, j :: 0 <= i < j < |NewTags(dialog, known)| ==>
      IndexOf(dialog, NewTags(dialog, known)[i]) < IndexOf(dialog, NewTags(dialog, known)[j])
    decreases |dialog|
  {
    if dialog != [] {
      var front := dialog[..|dialog| - 1];
      var last := dialog[|dialog| - 1];
      var previous := NewTags(front, known);
      var r := NewTags(dialog, known);
      assert dialog == front + [last];
      NewTagsFirstOccurrence(front, known);
      forall x | x in previous ensures IndexOf(dialog, x) == IndexOf(front, x) < |front| {
        IndexOfExtend(front, last, x);
      }
      if !(last in known || last in previous) {
        assert last !in front;
        assert dialog[..|front|] == front;
        IndexOfUnique(dialog, last, |front|);
        assert r == previous + [last];
        forall i, j | 0 <= i < j < |r| ensures IndexOf(dialog, r[i]) < IndexOf(dialog, r[j]) {
          assert r[i] == previous[i] && r[i] in previous;
          if j < |previous| {
            assert r[j] == previous[j] && r[j] in previous;
          }
        }
      } else {
        assert r == previous;
        forall i, j | 0 <= i < j < |r| ensures IndexOf(dialog, r[i]) < IndexOf(dialog, r[j]) {
          assert r[i] in previous && r[j] in previous;
        }
      }
    }
  }

  /** With a duplicate-free store list, the synchronised list is duplicate-free too. */
  lemma SyncKeepsNoDuplicates(known: seq<string>, dialog: seq<string>)
    requires NoDuplicates(known)
    ensures NoDuplicates(Kept(known, dialog) + NewTags(dialog, known))
  {
    KeptNoDuplicates(known, dialog);
    var a, b := Kept(known, dialog), NewTags(dialog, known);
    forall i, j | 0 <= i < j < |a + b| ensures (a + b)[i] != (a + b)[j] {
      if i < |a| && j >= |a| {
        assert (a + b)[i] in known && (a + b)[j] !in known;
      }
    }
  }

  lemma {:induction false} KeptNoDuplicates(known: seq<string>, dialog: seq<string>)
    requires NoDuplicates(known)
    ensures NoDuplicates(Kept(known, dialog))
  {
    if known != [] {
      assert NoDuplicates(known[1..]) by {
        forall i, j | 0 <= i < j < |known[1..]| ensures known[1..][i] != known[1..][j] {
          assert known[i + 1] != known[j + 1];
        }
      }
      KeptNoDuplicates(known[1..], dialog);
      assert known[0] !in known[1..] by {
        forall k | 0 <= k < |known[1..]| ensures known[1..][k] != known[0] {
          assert known[k + 1] != known[0];
        }
      }
    }
  }

  class TagEditDialog {
    var tags: seq<string>
    const controller: TaskController
    var accepted: bool

    /** The dialog works on its own copy of the tags it is given. */
    constructor (tags: seq<string>, controller: TaskController)
      ensures this.tags == tags && this.controller == controller && !accepted
    {
      this.tags := tags;
      this.controller := controller;
      accepted := false;
    }

    /** `add_tag`: the input is stripped; an empty result or a tag already listed is
        rejected, anything else is appended. Only the dialog's copy changes. */
    method AddTag(input: string)
      modifies this`tags
      ensures Strip(input) == [] || Strip(input) in old(tags) ==> tags == old(tags)
      ensures Strip(input) != [] && Strip(input) !in old(tags) ==> tags == old(tags) + [Strip(input)]
      ensures NoDuplicates(old(tags)) ==> NoDuplicates(tags)
    {
      var newTag := Strip(input);
      if newTag == [] {
        return;
      }
      if newTag in tags {
        return;
      }
      tags := tags + [newTag];
    }

    /** `delete_tag`: a confirmed deletion removes the selected row's tag (its first
        occurrence) from the dialog's copy; no selection or no confirmation changes nothing. */
    method DeleteTag(selectedRow: Option<nat>, confirmed: bool)
      requires selectedRow.Some? ==> selectedRow.value < |tags|
      modifies this`tags
      ensures selectedRow.Some? && confirmed ==>
        |tags| == |old(tags)| - 1 && tags == RemoveFirst(old(tags), old(tags)[selectedRow.value])
      ensures !(selectedRow.Some? && confirmed) ==> tags == old(tags)
    {
      if selectedRow.None? {
        return;
      }
      var tag := tags[selectedRow.value];
      if confirmed {
        tags := RemoveFirst(tags, tag);
      }
    }

    /** `save_tags`: every dialog tag missing from the store is added, then every store tag
        missing from the dialog is deleted, and the dialog is accepted. The store keeps its
        surviving tags in their order and gains the new ones in dialog order, so it ends up
        with the same set of tags as the dialog, though not in the dialog's order; the tasks
        are untouched. */
    method SaveTags()
      modifies this`accepted, controller.model, controller.model.subject`delivered
      ensures accepted
      ensures controller.model.tags == old(Kept(controller.model.tags, tags) + NewTags(tags, controller.model.tags))
      ensures forall x :: x in controller.model.tags <==> x in tags
      ensures controller.model.tasks == old(controller.model.tasks)
    {
      var current := controller.GetAllTags();
      assert current == controller.model.tags;
      AddMissing(current);
      DeleteExtra(current, NewTags(tags, current));
      accepted := true;
    }

    /** The first loop of `save_tags`: each dialog tag that the snapshot `current` lacks goes
        through the controller's `add_tag`. */
    method AddMissing(current: seq<string>)
      requires controller.model.tags == current
      modifies controller.model, controller.model.subject`delivered
      ensures controller.model.tags == current + NewTags(tags, current)
      ensures controller.model.tasks == old(controller.model.tasks)
    {
      var model := controller.model;
      for i := 0 to |tags|
        invariant model.tags == current + NewTags(tags[..i], current)
        invariant model.tasks == old(model.tasks)
      {
        var tag := tags[i];
        assert tags[..i + 1][..i] == tags[..i];
        if tag !in current {
          controller.AddTag(tag);
        }
      }
      assert tags[..|tags|] == tags;
    }

    /** The second loop of `save_tags`: each snapshot tag that the dialog no longer holds goes
        through the controller's `delete_tag`, which removes exactly that occurrence. */
    method DeleteExtra(current: seq<string>, added: seq<string>)
      requires controller.model.tags == current + added
      modifies controller.model, controller.model.subject`delivered
      ensures controller.model.tags == Kept(current, tags) + added
      ensures controller.model.tasks == old(controller.model.tasks)
    {
      var model := controller.model;
      assert current[0..] == current;
      for i := 0 to |current|
        invariant model.tags == Kept(current[..i], tags) + current[i..] + added
        invariant model.tasks == old(model.tasks)
      {
        var tag := current[i];
        DeleteStep(current, tags, added, i);
        if tag !in tags {
          controller.DeleteTag(tag);
        }
      }
      assert current[..|current|] == current;
    }
  }

  /** One step of the deletion loop: a tag the dialog dropped is removed where it stands,
      in front of the tags not yet visited; a tag the dialog kept stays. */
  lemma DeleteStep(current: seq<string>, dialog: seq<string>, added: seq<string>, i: nat)
    requires i < |current|
    ensures current[i] !in dialog ==>
      RemoveFirst(Kept(current[..i], dialog) + current[i..] + added, current[i])
        == Kept(current[..i + 1], dialog) + current[i + 1..] + added
    ensures current[i] in dialog ==>
      Kept(current[..i], dialog) + current[i..] + added == Kept(current[..i + 1], dialog) + current[i + 1..] + added
  {
    KeptPrefixStep(current, dialog, i);
    if current[i] in dialog {
      Regroup(Kept(current[..i], dialog), current, added, i);
    } else {
      DropStep(Kept(current[..i], dialog), current, added, i);
    }
  }

  lemma DropStep(front: seq<string>, current: seq<string>, added: seq<string>, i: nat)
    requires i < |current| && current[i] !in front
    ensures RemoveFirst(front + current[i..] + added, current[i]) == front + current[i + 1..] + added
  {
    Regroup(front, current, added, i);
    RemoveFirstAtJunction(front, current[i], current[i + 1..] + added);
  }

  /** `front + s[i..] + tail` split around `s[i]`. */
  lemma Regroup<T>(front: seq<T>, s: seq<T>, tail: seq<T>, i: nat)
    requires i < |s|
    ensures front + s[i..] + tail == front + [s[i]] + (s[i + 1..] + tail)
    ensures front + (s[i + 1..] + tail) == front + s[i + 1..] + tail
    ensures front + [s[i]] + (s[i + 1..] + tail) == (front + [s[i]]) + s[i + 1..] + tail
  {
    assert s[i..] == [s[i]] + s[i + 1..];
  }

  /** Keeping from one more element of `known` keeps that element too when the dialog holds it. */
  lemma {:induction false} KeptPrefixStep(known: seq<string>, dialog: seq<string>, i: nat)
    requires i < |known|
    ensures Kept(known[..i + 1], dialog) == Kept(known[..i], dialog) + if known[i] in dialog then [known[i]] else []
  {
    assert known[..i + 1] == known[..i] + [known[i]];
    KeptAppend(known[..i], [known[i]], dialog);
  }

  lemma {:induction false} KeptAppend(a: seq<string>, b: seq<string>, dialog: seq<string>)
    ensures Kept(a + b, dialog) == Kept(a, dialog) + Kept(b, dialog)
  {
    if a == [] {
      assert a + b == b;
    } else {
      assert (a + b)[0] == a[0] && (a + b)[1..] == a[1..] + b;
      KeptAppend(a[1..], b, dialog);
    }
  }
}
