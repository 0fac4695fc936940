/**
 * The page-level handlers of script.js: theme toggle, burger menu and nav
 * links, the two modals' open and close functions, the click-outside handler
 * and the team-card click.
 */
module Site {
  import opened Wrappers
  import opened Profiles
  import opened Modals

  /** The value stored under the "theme" key for a theme. */
  function ThemeName(isDark: bool): (s: string)
    ensures s == "dark" || s == "light"
    ensures s == "dark" <==> isDark
  {
    if isDark then "dark" else "light"
  }

  /** What a click on the window landed on, as far as `window.onclick` distinguishes it. */
  datatype ClickTarget = ProjectBackdrop | ProfileBackdrop | Elsewhere

  class Page {
    const projectModal: Modal
    const profileModal: Modal
    /** The `dark` class on the body. */
    var dark: bool
    /** The value stored under the "theme" key. */
    var storedTheme: string
    /** The `active` class on the navigation menu. */
    var navActive: bool

    ghost predicate Valid()
      reads this, projectModal, profileModal
    {
      projectModal != profileModal && projectModal.Valid() && profileModal.Valid()
    }

    constructor (project: Modal, profile: Modal, darkMarkup: bool, stored: string, navMarkup: bool)
      requires project != profile && project.Valid() && profile.Valid()
      ensures Valid() && projectModal == project && profileModal == profile
      ensures dark == darkMarkup && storedTheme == stored && navActive == navMarkup
    {
      projectModal, profileModal := project, profile;
      dark, storedTheme, navActive := darkMarkup, stored, navMarkup;
    }

    /** The theme toggle: flip `dark` and store the name of the new theme. */
    method ToggleTheme()
      modifies this
      ensures dark == !old(dark) && storedTheme == ThemeName(dark)
      ensures navActive == old(navActive)
    {
      dark := !dark;
      var isDark := dark;
      if isDark {
        storedTheme := "dark";
      } else {
        storedTheme := "light";
      }
    }

    /** Two clicks on the theme toggle restore the theme, and the stored value matches it. */
    method ToggleThemeTwice()
      modifies this
      ensures dark == old(dark) && storedTheme == ThemeName(dark)
      ensures navActive == old(navActive)
    {
      ToggleTheme();
      ToggleTheme();
    }

    /** The burger button toggles the menu. */
    method BurgerClicked()
      modifies this
      ensures navActive == !old(navActive)
      ensures dark == old(dark) && storedTheme == old(storedTheme)
    {
      navActive := !navActive;
    }

    /** A navigation link closes the menu, whether it was open or not. */
    method NavLinkClicked()
      modifies this
      ensures !navActive
      ensures dark == old(dark) && storedTheme == old(storedTheme)
    {
      navActive := false;
    }

    /**
     * `openModal` once the fetched page is parsed: `parsed` is its
     * `.project-detail` fragment if it has one. With a fragment, the content
     * becomes the close button and the fragment with its back link hidden;
     * without one the content is left as it was. The modal is shown either way.
     */
    method OpenModalLoaded(parsed: Option<Detail>)
      requires Valid()
      modifies projectModal
      ensures Valid() && projectModal.shown
      ensures parsed.Some? ==> projectModal.content == [CloseButton, ProjectDetail(WithoutBackLink(parsed.value))]
      ensures parsed.None? ==> projectModal.content == old(projectModal.content)
      ensures unchanged(profileModal)
    {
      if parsed.Some? {
        var projectDetail := WithoutBackLink(parsed.value);
        projectModal.ResetContent();
        projectModal.Append(ProjectDetail(projectDetail));
      }
      projectModal.Show();
    }

    /** `closeModal`. */
    method CloseModal()
      requires Valid()
      modifies projectModal
      ensures Valid() && !projectModal.shown && projectModal.content == [CloseButton]
      ensures unchanged(profileModal)
    {
      projectModal.Close();
    }

    /** `closeProfileModal`. */
    method CloseProfileModal()
      requires Valid()
      modifies profileModal
      ensures Valid() && !profileModal.shown && profileModal.content == [CloseButton]
      ensures unchanged(projectModal)
    {
      profileModal.Close();
    }

    /**
     * `openProfileModal`: the content becomes the close button, followed by the
     * member's block when the id has a profile; the modal is shown either way.
     */
    method OpenProfileModal(targetId: string)
      requires Valid()
      modifies profileModal
      ensures Valid() && profileModal.shown
      ensures profileModal.content == ProfileSlot(targetId)
      ensures unchanged(projectModal)
    {
      profileModal.ResetContent();
      var profileData := GetProfileData(targetId);
      if profileData.Some? {
        profileModal.Append(ProfileBlock(profileData.value));
      }
      profileModal.Show();
    }

    /** `window.onclick`: a click on a modal's backdrop closes that modal; other clicks change nothing. */
    method WindowClicked(target: ClickTarget)
      requires Valid()
      modifies projectModal, profileModal
      ensures Valid()
      ensures target == ProjectBackdrop ==> !projectModal.shown && projectModal.content == [CloseButton]
      ensures target != ProjectBackdrop ==> unchanged(projectModal)
      ensures target == ProfileBackdrop ==> !profileModal.shown && profileModal.content == [CloseButton]
      ensures target != ProfileBackdrop ==> unchanged(profileModal)
    {
      if target == ProjectBackdrop {
        CloseModal();
      }
      if target == ProfileBackdrop {
        CloseProfileModal();
      }
    }

    /** A team-card click: the id is the card's `href` without its first character. */
    method CardLinkClicked(href: string)
      requires Valid()
      modifies profileModal
      ensures Valid() && profileModal.shown
      ensures profileModal.content == ProfileSlot(CardTargetId(href))
      ensures unchanged(projectModal)
    {
      var targetId := CardTargetId(href);
      OpenProfileModal(targetId);
    }
  }
}
