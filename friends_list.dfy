/**
 * The friends panel: a form whose submission adds the typed email,
 * trimmed, to the signed-in user's friends.
 */
module FriendsList {
  import opened Wrappers
  import opened Types
  import Strings
  import Auth

  /**
   * What a submission passes to `onAddFriend`: nothing for a blank
   * input, otherwise the input trimmed, which is then non-empty and has no
   * surrounding whitespace.
   */
  function Submission(input: string): (r: Option<string>)
    ensures r.None? <==> Strings.AllWhitespace(input)
    ensures r.Some? ==> r.value == Strings.Trim(input) && r.value != []
    ensures r.Some? ==> !Strings.IsWhitespace(r.value[0]) && !Strings.IsWhitespace(r.value[|r.value| - 1])
  {
    Strings.TrimEmptyIffBlank(input);
    var t := Strings.Trim(input);
    if t == [] then None else Some(t)
  }

  /** Submitting a trimmed email again submits the same email. */
  lemma SubmissionOfTrimmed(input: string)
    requires Submission(input).Some?
    ensures Submission(Submission(input).value) == Submission(input)
  {
    Strings.TrimIdempotent(input);
    Strings.TrimEmptyIffBlank(Strings.Trim(input));
  }

  /**
   * Submitting two inputs that trim to the same email adds that email
   * once: the second submission leaves the user as the first left it, and
   * a new email ends up listed exactly once.
   */
  lemma SubmitTwiceAddsOnce(u: User, first: string, second: string)
    requires Submission(first).Some? && Strings.Trim(first) == Strings.Trim(second)
    ensures Submission(second) == Submission(first)
    ensures var f := Submission(first).value;
      Auth.WithFriend(Auth.WithFriend(u, f), Submission(second).value) == Auth.WithFriend(u, f)
    ensures var f := Submission(first).value;
      f !in u.friends ==> multiset(Auth.WithFriend(u, f).friends)[f] == 1
  {
    var f := Submission(first).value;
    assert Submission(second) == Submission(first) by {
      assert Strings.Trim(first) != [];
    }
    Auth.WithFriendIdempotent(u, f);
    if f !in u.friends {
      ListedOnce(u.friends, f);
    }
  }

  lemma ListedOnce(friends: seq<string>, f: string)
    requires f !in friends
    ensures multiset(friends + [f])[f] == 1
  {
    assert multiset(friends + [f]) == multiset(friends) + multiset{f};
  }

  /** The form's state. */
  class FriendsForm {
    var newFriendEmail: string

    constructor ()
      ensures newFriendEmail == ""
    {
      newFriendEmail := "";
    }

    /** Typing in the email field. */
    method SetEmail(text: string)
      modifies this
      ensures newFriendEmail == text
    {
      newFriendEmail := text;
    }

    /**
     * `handleSubmit`: returns the email to pass to `onAddFriend`, if any.
     * A blank input adds nothing and stays in the field; otherwise the
     * field is cleared.
     */
    method HandleSubmit() returns (added: Option<string>)
      modifies this
      ensures added == Submission(old(newFriendEmail))
      ensures added.None? ==> newFriendEmail == old(newFriendEmail)
      ensures added.Some? ==> newFriendEmail == ""
    {
      var trimmed := Strings.Trim(newFriendEmail);
      if trimmed != [] {
        added := Some(trimmed);
        newFriendEmail := "";
      } else {
        added := None;
      }
    }
  }
}
