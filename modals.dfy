/**
 * The modal shell shared by the project modal and the profile modal of
 * script.js: a `show` class and a `.modal-content` slot whose close button
 * survives every content replacement.
 */
module Modals {
  import opened Wrappers
  import opened Profiles

  /** The `a[href="index.html"]` back link inside a project fragment, if it has one. */
  datatype BackLink = NoBackLink | BackLink(shown: bool)

  /** A parsed `.project-detail` fragment; its markup is opaque apart from the back link. */
  datatype Detail = Detail(markup: nat, backLink: BackLink)

  /** A child of a modal's content slot. */
  datatype Child = CloseButton | ProjectDetail(detail: Detail) | ProfileBlock(profile: Profile)

  /** The fragment with its back link (when it has one) hidden and nothing else changed. */
  function WithoutBackLink(d: Detail): (r: Detail)
    ensures r.markup == d.markup
    ensures r.backLink.BackLink? <==> d.backLink.BackLink?
    ensures r.backLink != BackLink(true)
  {
    if d.backLink.BackLink? then d.(backLink := BackLink(false)) else d
  }

  /**
   * The profile modal's content after it is opened for `id`: the close button,
   * followed by the member's profile block exactly when the id has a profile.
   */
  function ProfileSlot(id: string): (c: seq<Child>)
    ensures 1 <= |c| <= 2 && c[0] == CloseButton
    ensures |c| == 2 <==> id in ProfileIds
    ensures |c| == 2 ==> c[1] == ProfileBlock(GetProfileData(id).value)
  {
    match GetProfileData(id)
    case Some(p) => [CloseButton, ProfileBlock(p)]
    case None => [CloseButton]
  }

  /** Opening the card `#<id>` shows the close button and that member's block, or the close button alone. */
  lemma CardProfileSlot(id: string)
    ensures id in ProfileIds ==> ProfileSlot(CardTargetId("#" + id)) == [CloseButton, ProfileBlock(Table[id])]
    ensures id !in ProfileIds ==> ProfileSlot(CardTargetId("#" + id)) == [CloseButton]
  {
    CardLinkRoundTrip(id);
  }

  class Modal {
    var shown: bool
    var content: seq<Child>

    /** The markup contract: the content slot holds the close button. */
    ghost predicate Valid()
      reads this
    {
      CloseButton in content
    }

    constructor (markup: seq<Child>)
      requires CloseButton in markup
      ensures Valid() && !shown && content == markup
    {
      shown, content := false, markup;
    }

    /** `modalContent.innerHTML = ''` followed by `appendChild(closeBtn)`. */
    method ResetContent()
      requires Valid()
      modifies this
      ensures Valid()
      ensures content == [CloseButton] && shown == old(shown)
    {
      content := [];
      content := content + [CloseButton];
    }

    /** `modalContent.appendChild(c)`. */
    method Append(c: Child)
      requires Valid()
      modifies this
      ensures Valid()
      ensures content == old(content) + [c] && shown == old(shown)
    {
      content := content + [c];
    }

    /** `modal.classList.add('show')`. */
    method Show()
      modifies this
      ensures shown && content == old(content)
    {
      shown := true;
    }

    /** `closeModal` and `closeProfileModal`: hide, then keep only the close button, also when already closed. */
    method Close()
      requires Valid()
      modifies this
      ensures Valid()
      ensures !shown && content == [CloseButton]
    {
      shown := false;
      ResetContent();
    }
  }
}
