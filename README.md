# IT-Boiz page script, modelled in Dafny

This project models the interactive core of the IT-Boiz portfolio page
(`script.js`): the paginated image gallery with its "show more" button and
add button, the two modals (project details and team-member profiles) whose
content slot always keeps its close button, the team-member profile table, the
extraction of a member id from a card link, the dark/light theme toggle and the
mobile navigation menu.

The page is reduced to a small abstract state:

- `Gallery.GalleryGrid`: the children of the gallery grid as a sequence of
  nodes (gallery items with an opaque tile and a displayed flag, and the
  `button-div` sentinel that holds the add button), plus the "show more" flag.
  The refresh, the show-more click and the add click are methods that update
  that sequence in place and are proved equal to specification functions
  (`Paginated`, `Revealed`, `InsertBeforeSentinel`), whose properties are
  lemmas.
- `Modals.Modal`: a `show` flag and the content slot as a sequence of children.
  Its invariant is that the close button is in the slot.
- `Site.Page`: the two modals, the body's `dark` flag, the value stored under
  the "theme" key, and the menu's `active` flag.
- `Profiles`: the fixed profile table and the card-link id, as pure functions.

Behaviour worth knowing, taken from the code:

- The refresh shows the first 12 items when there are more than 12 (strictly
  greater), otherwise all of them. It looks only at the layout, never at what
  was displayed before (`Gallery.PaginatedIgnoresDisplay`). So "show more" is
  not sticky: the next add click re-applies the 12-item rule.
- The add click inserts before the first `button-div`. When there is none,
  `insertBefore` with a null reference appends, and the model does the same.
- `openModal` shows the modal even when the fetched page has no
  `.project-detail`. The content is then left as it was. The back link inside
  the fragment is hidden with `display: none`, not removed.
- `openProfileModal` always shows the modal. For an unknown id the slot holds
  only the close button.
- The script writes the theme to storage but never reads it back, so no
  load-time theme logic is modelled.

## Model

| member | source | states |
|---|---|---|
| `Gallery.Items` | script.js:58 | The filtered item list holds only gallery items, never the sentinel, and is no longer than the grid. |
| `Gallery.ItemsMembers` | script.js:58 | A node is in the filtered list iff it is a gallery item of the grid, and a lone `button-div` filters to nothing. |
| `Gallery.ItemsAppend` | script.js:58 | Filtering a concatenation concatenates the filtered parts, so the filter keeps document order. |
| `Gallery.NewItem` | script.js:187-189 | The created node is a gallery item with the fixed new-project tile and no inline display style, so it is displayed until the refresh. |
| `Gallery.Restyled` | script.js:62-68 | Setting display flags keeps the grid's length, every sentinel in place and every item's tile. |
| `Gallery.RestyledItems` | script.js:62-68 | After a restyle the items keep their tiles and order, and item number i is displayed iff the rule shows index i. |
| `Gallery.Paginated` | script.js:56-77 | The refresh changes only display flags: the grid keeps its length, its sentinels and its tiles. Which flags it sets is stated by `Gallery.PaginatedRule`. |
| `Gallery.Revealed` | script.js:80-87 | "Show more" changes only display flags. `Gallery.RevealedShowsAll` states that every item ends displayed. |
| `Gallery.PaginatedRule` | script.js:56-77 | After the refresh over N items, item i is displayed iff N <= 12 or i < 12. Tiles, order and sentinels are unchanged. |
| `Gallery.PaginatedShownCount` | script.js:60-76 | After the refresh exactly min(N, 12) items are displayed. |
| `Gallery.RevealedShowsAll` | script.js:80-87 | After "show more" every item is displayed. Count, tiles, order and sentinels are unchanged. |
| `Gallery.PaginatedIgnoresDisplay` | script.js:56-77 | Two grids that differ only in display flags refresh to the same grid. |
| `Gallery.PaginatedIdempotent` | script.js:56-87 | Refreshing twice equals refreshing once, and a refresh after "show more" re-hides exactly as before it. |
| `Gallery.FirstSentinel` | script.js:184 | The position found is a `button-div` (or the end of the grid), and everything before it is an item. |
| `Gallery.InsertBeforeSentinel` | script.js:184-192 | Insertion grows the grid by one and puts the node at the first `button-div` (or the end). Children before it are unchanged, and children from it on move one place right. |
| `Gallery.InsertedItems` | script.js:192 | Inserting grows the grid by one and the item list by exactly the new item. The new item sits right before the first sentinel and the old items keep their order. |
| `Gallery.SentinelLastPosition` | script.js:184 | When the sentinel is last, it is the one found, and the items are everything before it. |
| `Gallery.InsertedBeforeLastSentinel` | script.js:192 | With the sentinel last, the new item becomes the last item and the sentinel stays last. |
| `Gallery.AddedItemLayout` | script.js:181-196 | After an add click the sentinel stays last and the item count is N + 1. The old items keep their tiles and order, the new item is item N, and the 12-item rule holds for N + 1. |
| `Gallery.GalleryGrid.Load` | script.js:90 | At load the grid is the refreshed markup, and "show more" is displayed iff there are more than 12 items. |
| `Gallery.GalleryGrid.Restyle` | script.js:62-68 | The per-item loop leaves the grid equal to `Restyled` of the old grid and leaves "show more" alone. |
| `Gallery.GalleryGrid.UpdateVisibility` | script.js:56-77 | The grid becomes `Paginated` of the old grid, and "show more" is displayed iff there are more than 12 items. |
| `Gallery.GalleryGrid.ShowMoreClicked` | script.js:80-87 | The grid becomes `Revealed` of the old grid and "show more" is hidden. |
| `Gallery.GalleryGrid.AddItemClicked` | script.js:182-195 | The grid becomes the refresh of the old grid with the new item inserted before the sentinel. "Show more" is displayed iff N + 1 > 12, and a last sentinel stays last. |
| `Profiles.GetProfileData` | script.js:246-271 | A profile exists exactly for "jondie", "billy", "yanmar" and "nero", with a non-empty name and description. Any other id gives nothing. |
| `Profiles.ProfileImagePath` | script.js:248-269 | Every profile's image is `images/<id>.png`. |
| `Profiles.JondieProfile` | script.js:249-253 | The "jondie" profile is named "Jondie Caguioa" with image "images/jondie.png". |
| `Profiles.CardTargetId` | script.js:290 | The id is the href with its first character dropped, or "" for an empty href. |
| `Profiles.CardLinkRoundTrip` | script.js:290-294 | A card link `#<id>` yields `<id>`, which has a profile iff it is one of the four ids. |
| `Profiles.LookupAsWritten` | script.js:270 | The object-literal lookup finds an own record exactly for the four ids, and an inherited member exactly for the Object.prototype names. |
| `Profiles.PrototypeKeyPassesAsWritten` | script.js:270 | The id "toString" passes the as-written truthiness test, though it has no profile. |
| `Profiles.LookupCorrection` | script.js:246-271 | The corrected lookup agrees with the object literal on every own key. The two differ exactly on the inherited member names. |
| `Modals.WithoutBackLink` | script.js:116-117 | The fragment keeps its markup, keeps or lacks its back link as before, and any back link is hidden afterwards. |
| `Modals.ProfileSlot` | script.js:213-235 | The profile slot starts with the close button. It holds that member's block as the second and last child iff the id has a profile, and otherwise only the close button. |
| `Modals.CardProfileSlot` | script.js:284-294 | Clicking the card `#<id>` fills the slot with the close button and that member's record when the id is known, and with the close button alone otherwise. |
| `Modals.Modal.ResetContent` | script.js:139-142 | Clearing the slot leaves exactly the close button and does not change `show`. |
| `Modals.Modal.Append` | script.js:122-123 | Appending adds the child at the end, and the close button stays in the slot. |
| `Modals.Modal.Show` | script.js:126 | Adding `show` leaves the content unchanged. |
| `Modals.Modal.Close` | script.js:134-157 | Closing clears `show` and leaves exactly the close button, also when the modal was already closed. |
| `Site.ThemeName` | script.js:35-39 | The stored value is "dark" or "light", and it is "dark" iff the theme is dark. |
| `Site.Page.ToggleTheme` | script.js:30-40 | The dark flag flips and the stored value names the new theme. The menu is untouched. |
| `Site.Page.ToggleThemeTwice` | script.js:30-40 | Two toggles restore the dark flag, and the stored value matches it. |
| `Site.Page.BurgerClicked` | script.js:20-23 | The burger flips the menu's `active` flag and leaves the theme alone. |
| `Site.Page.NavLinkClicked` | script.js:12-14 | A nav link forces `active` off, whatever it was. |
| `Site.Page.OpenModalLoaded` | script.js:112-126 | With a detail fragment, the project slot becomes the close button then the fragment with its back link hidden. Without one, the slot is unchanged. The modal is shown either way, and the profile modal is untouched. |
| `Site.Page.CloseModal` | script.js:134-143 | The project modal is hidden and holds only its close button. The profile modal is untouched. |
| `Site.Page.CloseProfileModal` | script.js:148-157 | The profile modal is hidden and holds only its close button. The project modal is untouched. |
| `Site.Page.OpenProfileModal` | script.js:208-239 | The profile modal is shown, whether or not the id is known, and its slot is `ProfileSlot(id)`. |
| `Site.Page.WindowClicked` | script.js:163-175 | A click on a modal's backdrop closes exactly that modal. Any other click changes neither modal. |
| `Site.Page.CardLinkClicked` | script.js:284-294 | A card click opens the profile modal for the href without its first character. |

## Left out

- Fetching `project-bank.html`, reading the response text, `DOMParser` and the `.catch` logging are network and parsing I/O. `Site.Page.OpenModalLoaded` takes the parse result (fragment present or absent) as a parameter.
- Overlapping `openModal` calls racing, and a late fetch re-showing a closed modal, are event-loop concurrency. Each call is modelled as running to completion.
- HTML templating through `innerHTML` and all CSS are not modelled. The new gallery item is the abstract tile `NewProject`, a profile block is the record it renders, and a project fragment is opaque apart from its back link.
- `localStorage` is the string field `storedTheme`. `console.log`, listener registration, `DOMContentLoaded` and the `if (addButton)` guard are plumbing.
- Missing DOM elements (null lookups, a slot without a close button, a missing `href`) make the script fault. The model requires the markup contract instead (`Modal.Valid`, `Page.Valid`).
- The display of the `button-div` itself is never touched by the script, so the sentinel carries no display flag.
- Profiles.CardTargetId: drops the first Unicode scalar value of the href, where `substring(1)` drops the first UTF-16 code unit. So an href that starts with a character outside the Basic Multilingual Plane (for example `"😀jondie"`) differs: the code keeps a lone low surrogate and finds no profile, while the model finds "jondie".
- The model assumes every `.gallery-item` and the `.button-div` of the document are children of one `.gallery-grid`. The code queries both classes across the whole document and inserts into the first grid; when the first `button-div` is not a child of that grid, `insertBefore` throws `NotFoundError`. That exception is not modelled.
- Profiles.GetProfileData: for the Object.prototype member names it gives nothing, while the code as written renders a profile block with undefined image and description (see Findings). The rest of the model uses this corrected lookup.

## Findings

| source | as written | input that shows it | evidently intended | confidence | as-written member | corrected member |
|---|---|---|---|---|---|---|
| script.js:270 | `profiles[id]` on an object literal also returns members inherited from Object.prototype. These are truthy, so `openProfileModal` renders a profile block for them. Its image and description render as "undefined". Its name is the inherited function's own name ("toString", or "Object" for "constructor"); for "__proto__", which yields Object.prototype, the name renders as "undefined" too. | id "toString" (a card link `#toString`), or "constructor", "__proto__" and the other inherited names | Only the four member ids give a profile; any other id gives nothing, as the function's doc comment says ("Profile data object or null if not found"). | medium; not executed | `Profiles.LookupAsWritten`, `Profiles.PrototypeKeyPassesAsWritten` | `Profiles.GetProfileData`, `Profiles.LookupCorrection` |
