# Leaseo storefront logic, modelled in Dafny

Leaseo is a rental marketplace with a Next.js frontend. This project models
the pieces of that frontend that make decisions, and proves properties of
each:

- **The dual-range price slider** of the product filter sidebar. It is a
  small state machine: idle, or dragging the min or the max thumb. It maps a
  pointer's track position to a price, snaps the price to the step, keeps
  the two handles ordered and at least one step apart, and emits live
  changes. On release it commits the latest value once, and the sidebar
  turns that commit into the `priceRange` filter token `"<low>-<high>"`.
- **The quotation list:** the tab badge counts of the fetched list, tab filtering, when
  Accept/Decline is offered, the style and label fallbacks, the two-item
  preview, and the argument the list fetch is given.
- **The order list:** the style and label fallbacks, cancel eligibility,
  the "Rental Active" marker, tab labels, and the decision that follows a
  cancel request (including the refund branch).
- **The navigation bar:** where it is hidden, which links and dashboard
  targets each role sees, the avatar initials, the display name, and the
  mobile menu toggle.
- **The wishlist page:** the loading flag around the fetch, removal of an
  entry only once the server confirms it, the add-to-cart rule, the product
  links, and the count and empty state.

Files:

| file | module | models |
|---|---|---|
| `common.dfy` | `Common` | `Option`, the tab-to-query rule, the two-item preview, `indexOf` |
| `slider.dfy` | `PriceSlider` | the slider's arithmetic and the class `DualRangeSlider` |
| `token.dfy` | `PriceToken` | the `"<low>-<high>"` token and a parser that undoes it |
| `sidebar.dfy` | `FilterSidebar` | the class `ProductFilterSidebar`, which owns `priceRange` and the filters |
| `quotations.dfy` | `Quotations` | the quotation list page |
| `orders.dfy` | `Orders` | the order list page |
| `navbar.dfy` | `Navbar` | the navigation bar and the class `MobileMenu` |
| `wishlist.dfy` | `Wishlist` | the class `WishlistPage` and its list update |

**State and values.**
- State the source mutates is a class field:
  - the slider's `isDragging` and `valueRef` refs;
  - the sidebar's `priceRange` state and the filters it writes through `setFilters`;
  - the navbar's `isMenuOpen`;
  - the wishlist's `wishlistItems` and `isLoading`.
- Everything else is a function over datatypes.
- Foreign calls become inputs:
  - the quotation and order lists;
  - a `success` flag, an error text and a refund answer;
  - an "is past" boolean for a quotation's expiry;
  - the session's role and names;
  - the pointer position and the track's left edge and width.

**Numbers.**
- Domain values and handle positions are integers.
- Pointer geometry is real.
- JavaScript's `Math.round` is `Floor(x + 1/2)`.
- Where the source produces `NaN` or an infinity, `JsNumber` in
  `slider.dfy` models IEEE doubles as far as the slider needs them.

**A JavaScript falsy value.** A missing or empty string is modelled as
the empty string: `undefined`, `null` and `""` behave alike in `||`
and in `? :`.

**Behaviour worth knowing** (the model follows the code):
- **Snapping.** `Math.round(raw / step) * step` snaps to absolute
  multiples of the step, not to `min + k*step`. The handle is then clamped
  to `min` or `max`, and kept one step from the other handle. So a handle
  can rest on `min`, on `max`, on a multiple of the step, or one step from
  the other handle. For example, `DragTo(Domain(50, 1000, 100), MaxThumb,
  Range(50, 1000), 0)` is `Range(50, 150)`. `PriceSlider.Snap` states the
  code's rule. `PriceSlider.SnapStaysInDomain` shows that when `min` and
  `max` are multiples of the step, snapping never leaves [min, max]. On
  the sidebar's domain (0 to 10000 by 100) the absolute and the offset
  readings coincide, because 0 is a multiple of 100.
- **The "all" count.** `getStatusCounts` bumps every key of the counts
  record that a status names, and `all` is one of those keys. So a quotation
  whose status is the literal `"all"` is counted twice in `all`.
  `Quotations.GetStatusCounts` states it exactly:
  `all == |qs| + CountWithStatus(qs, "all")`.
  `Quotations.TabBadge` shows that the badge and the list length agree
  whenever that status does not occur.
- **Badges count the fetched list.** The counts are taken over
  `quotations`, the list fetched for the active tab. On a status tab the
  server has already filtered that list to the tab's status: the server
  action is not part of this model, and that filtering is the precondition
  of `Quotations.BadgesOnStatusTab`. So the badges
  count what is on screen, not every quotation of the customer: the "All"
  badge shows the same number as the active tab, and every other status tab
  shows 0 (`Quotations.BadgesOnStatusTab`). Only on the "All" tab does each
  badge count its status over the whole list.
- **A track of width zero.** The clamp of the fraction to [0, 1] is
  evidently meant to keep every emitted pair ordered. On a track of width
  zero, with the pointer on its left edge, the fraction is 0/0 = NaN. The
  clamp lets NaN through, and the slider emits NaN as a handle value; see
  "## Findings". For any other pointer position, the division by zero gives
  an infinity, and the clamp turns that into 0 or 1.

## Model

| member | source | states |
|---|---|---|
| Common.TabQuery | src/app/quotations/page.tsx:97-99 | The fetch gets no filter (`undefined`) exactly for the "all" tab and the tab's own name otherwise; orders use the same rule |
| Common.Preview | src/app/quotations/page.tsx:279 | A card lists a prefix of the items, of length min(count, 2) |
| Common.MoreCount | src/app/quotations/page.tsx:291-293 | The "+k more" line exists exactly when there are more than 2 items, and then k is positive |
| Common.PreviewAccountsForAll | src/app/orders/page.tsx:247-271 | Listed items plus k account for every item exactly once; with no "+k" line every item is listed |
| Common.FirstIndex | src/app/orders/page.tsx:186 | `indexOf`: none exactly when the character is absent; otherwise the index holds it and nothing before it does |
| Common.FirstIndexAfter | src/components/products/ProductFilterSidebar.tsx:418 | In `a + [c] + b` with no `c` in `a`, the first `c` is at `|a|` |
| PriceSlider.Clamp01 | src/components/products/ProductFilterSidebar.tsx:153 | `Math.min(Math.max(x, 0), 1)` lies in [0, 1], is x inside, 0 below and 1 above |
| PriceSlider.Fraction | src/components/products/ProductFilterSidebar.tsx:153 | The pointer fraction lies in [0, 1], equals dx/width inside the track, is 0 left of the track and 1 right of it |
| PriceSlider.RawValue | src/components/products/ProductFilterSidebar.tsx:154 | A fraction in [0, 1] scales into [min, max], with 0 at min and 1 at max |
| PriceSlider.Round | src/components/products/ProductFilterSidebar.tsx:155 | `Math.round` gives n with n - 1/2 <= x < n + 1/2, so halves round up |
| PriceSlider.Snap | src/components/products/ProductFilterSidebar.tsx:155 | The snapped value is a multiple of the step within half a step of raw |
| PriceSlider.SnapIsNearest | src/components/products/ProductFilterSidebar.tsx:155 | No multiple of the step is closer to raw than the snapped value |
| PriceSlider.SnapStaysInDomain | src/components/products/ProductFilterSidebar.tsx:153-155 | When min and max are multiples of the step, a track value never snaps outside [min, max] |
| PriceSlider.Stepped | src/components/products/ProductFilterSidebar.tsx:155 | The value under the pointer is a multiple of the step; when min and max are multiples of the step it lies in [min, max] |
| PriceSlider.Percentage | src/components/products/ProductFilterSidebar.tsx:66 | `getPercentage` maps [min, max] into [0, 100], min to 0 and max to 100 |
| PriceSlider.PercentageMonotone | src/components/products/ProductFilterSidebar.tsx:198-204 | A larger value is drawn strictly further right, so the active segment never inverts |
| PriceSlider.PercentageRoundTrip | src/components/products/ProductFilterSidebar.tsx:207-221 | A pointer exactly where a thumb is drawn reads back that thumb's value, and snaps to it when the value is a multiple of the step |
| PriceSlider.NextLow | src/components/products/ProductFilterSidebar.tsx:160-164 | The new low is at least min, and at most high - step unless pinned at min. It is `stepped` when that fits, min below the domain, and high - step above |
| PriceSlider.NextHigh | src/components/products/ProductFilterSidebar.tsx:165-169 | The mirror of NextLow for the high handle and max |
| PriceSlider.DragTo | src/components/products/ProductFilterSidebar.tsx:157-169 | Only the dragged handle moves, and the ordering invariant (min <= low, low + step <= high, high <= max) is preserved |
| PriceSlider.DragToIdempotent | src/components/products/ProductFilterSidebar.tsx:160-168 | Dragging to the same stepped value twice changes nothing the second time |
| PriceSlider.EarlyDragTo | src/components/products/ProductFilterSidebar.tsx:80-86 | The first effect's update moves only the dragged handle, keeping one step from the other handle |
| PriceSlider.EarlyDragToAgrees | src/components/products/ProductFilterSidebar.tsx:80-86 | On a domain whose ends are multiples of the step, the first effect's handler and the ref-based handler emit the same pair |
| PriceSlider.FractionAsWritten | src/components/products/ProductFilterSidebar.tsx:153 | In JavaScript numbers the clamped fraction is finite or NaN, never infinite |
| PriceSlider.FractionAsWrittenAgrees | src/components/products/ProductFilterSidebar.tsx:153 | Whenever the division is not 0/0, the JavaScript result is exactly `Fraction` |
| PriceSlider.EmittedLowAsWritten | src/components/products/ProductFilterSidebar.tsx:160-164 | A NaN fraction is emitted as NaN; a finite one is emitted only when the low handle changes |
| PriceSlider.ZeroWidthTrackEmitsNaN | src/components/products/ProductFilterSidebar.tsx:153-164 | A zero-width track with the pointer on its left edge emits NaN as the new low |
| PriceSlider.DualRangeSlider.constructor | src/components/products/ProductFilterSidebar.tsx:62-64 | A new slider is idle, with its snapshot set to the value prop |
| PriceSlider.DualRangeSlider.Render | src/components/products/ProductFilterSidebar.tsx:144-145 | A render overwrites the snapshot with the prop and leaves the drag state alone |
| PriceSlider.DualRangeSlider.Press | src/components/products/ProductFilterSidebar.tsx:211-220 | A press starts dragging that thumb and does not change the value |
| PriceSlider.DualRangeSlider.Move | src/components/products/ProductFilterSidebar.tsx:148-170 | An idle move emits nothing. While dragging, the emitted pair is the DragTo of the snapped pointer value, or nothing when it equals the snapshot. Only the dragged handle differs, and the invariant is kept |
| PriceSlider.DualRangeSlider.Release | src/components/products/ProductFilterSidebar.tsx:172-177 | A release while dragging commits the snapshot once and returns to idle; a release while idle commits nothing |
| PriceToken.NatToDecimal | src/components/products/ProductFilterSidebar.tsx:418 | `${n}` is a non-empty digit string without a leading zero |
| PriceToken.IntToDecimal | src/components/products/ProductFilterSidebar.tsx:418 | `${n}` is non-empty, starts with '-' exactly for a negative n, and is all digits for a non-negative n |
| PriceToken.DecimalRoundTrip | src/components/products/ProductFilterSidebar.tsx:418 | Reading back the digits of n gives n |
| PriceToken.Encode | src/components/products/ProductFilterSidebar.tsx:418 | The token `${low}-${high}` is both numerals around one '-'. For a non-negative low, its first '-' is the separator right after low's digits |
| PriceToken.Parse | src/components/products/ProductFilterSidebar.tsx:418 | Parsing yields only ranges with non-negative ends |
| PriceToken.ParseEncode | src/components/products/ProductFilterSidebar.tsx:418 | Every range with non-negative ends is read back from its token |
| PriceToken.EncodeInjective | src/components/products/ProductFilterSidebar.tsx:418 | Distinct such ranges give distinct tokens |
| FilterSidebar.SetFilter | src/components/products/ProductFilterSidebar.tsx:235-237 | `{ ...filters, [key]: value }` adds `key` with `value` and keeps every other key and value |
| FilterSidebar.PriceSnapExample | src/components/products/ProductFilterSidebar.tsx:411-415 | A pointer 37% along the price track selects 3700 |
| FilterSidebar.MoveTo | src/components/products/ProductFilterSidebar.tsx:148-169 | One move of a drag changes only the dragged handle and keeps an ordered range ordered |
| FilterSidebar.Replay | src/components/products/ProductFilterSidebar.tsx:148-169 | The range after a sequence of moves, one at a time: only the dragged handle moves, and order is kept throughout |
| FilterSidebar.ReplayConcat | src/components/products/ProductFilterSidebar.tsx:148-169 | A gesture split in two continues from where its first part left the range |
| FilterSidebar.ReplayRepeatedMove | src/components/products/ProductFilterSidebar.tsx:157-169 | Repeating a pointer position moves nothing the second time |
| FilterSidebar.ProductFilterSidebar.constructor | src/components/products/ProductFilterSidebar.tsx:233 | `priceRange` starts at (0, 10000), and the slider is idle on it |
| FilterSidebar.ProductFilterSidebar.FilterChange | src/components/products/ProductFilterSidebar.tsx:235-237 | The filters become SetFilter of the old filters |
| FilterSidebar.ProductFilterSidebar.Render | src/components/products/ProductFilterSidebar.tsx:411-416 | Re-rendering hands `priceRange` to the slider's snapshot |
| FilterSidebar.ProductFilterSidebar.PressThumb | src/components/products/ProductFilterSidebar.tsx:211-220 | A thumb press starts that drag |
| FilterSidebar.ProductFilterSidebar.PointerMove | src/components/products/ProductFilterSidebar.tsx:416 | An emitted change replaces `priceRange` (otherwise it stays). It is the slider's DragTo, and the invariant is kept |
| FilterSidebar.ProductFilterSidebar.PointerUp | src/components/products/ProductFilterSidebar.tsx:417-419 | A commit sets `priceRange` to the token of the committed pair and leaves every other filter unchanged; no commit changes no filter |
| FilterSidebar.ProductFilterSidebar.DragGesture | src/components/products/ProductFilterSidebar.tsx:411-419 | A press, any moves (each followed by a render) and a release commit exactly once. The committed pair is the `Replay` of the moves from the starting range; it is ordered and becomes the filter token |
| FilterSidebar.EndToEnd | src/components/products/ProductFilterSidebar.tsx:411-419 | From (0, 10000), dragging min to 20% of the track emits (2000, 10000). Releasing commits it as "2000-10000", and a second release commits nothing |
| Quotations.CountWithStatus | src/app/quotations/page.tsx:133-137 | The number of quotations with a status is at most the list length |
| Quotations.GetStatusCounts | src/app/quotations/page.tsx:125-139 | `all` is the list length plus the quotations with status "all". Each known bucket counts exactly the quotations with that status |
| Quotations.BucketsAtMostAll | src/app/quotations/page.tsx:128-137 | The four buckets together count at most the list length |
| Quotations.WithStatus | src/app/quotations/page.tsx:146 | The filtered list holds exactly the quotations with the status, as many as CountWithStatus |
| Quotations.WithStatusConcat | src/app/quotations/page.tsx:146 | Filtering a concatenation concatenates the filtered parts, so the order is kept |
| Quotations.FilteredQuotations | src/app/quotations/page.tsx:143-146 | The "all" tab shows the list unchanged; any other tab shows the quotations with that status |
| Quotations.TabBadge | src/app/quotations/page.tsx:171-181 | Over the fetched list, a status tab's badge is the length of that tab's filtered list, and so is the "all" badge when no quotation has status "all" |
| Quotations.CountInUniformList | src/app/quotations/page.tsx:133-137 | In a list of one status, that status counts the whole list and every other status counts 0 |
| Quotations.BadgesOnStatusTab | src/app/quotations/page.tsx:97-100 | On a status tab, the list is fetched already filtered to that status, so the "All" badge equals the active tab's badge and every other status badge is 0 |
| Quotations.StyleKey | src/app/quotations/page.tsx:199 | A configured status is styled as itself, and any other status as SENT |
| Quotations.StatusLabel | src/app/quotations/page.tsx:222 | A badge label exists exactly for the four configured statuses and is never empty |
| Quotations.CanTakeAction | src/app/quotations/page.tsx:202 | Accept/Decline needs a SENT quotation that has not expired: such a quotation is styled SENT and labelled "Pending Review", and an expired one never offers it |
| Quotations.ActionableIsPending | src/app/quotations/page.tsx:199-202 | A quotation offering Accept/Decline is styled SENT, labelled "Pending Review", and listed under the SENT tab |
| Orders.StatusStyle | src/app/orders/page.tsx:157-159 | A configured status is styled as itself, and any other status as draft |
| Orders.StatusLabel | src/app/orders/page.tsx:230 | The shown label is the configured one when present and otherwise the raw status; it is empty only for an empty status |
| Orders.LabelsCoverStyledStatuses | src/app/orders/page.tsx:82-88 | Each styled status has a label, and only "in-progress" shows as "active" |
| Orders.CanCancel | src/app/orders/page.tsx:287 | Only draft and confirmed orders can be cancelled; both are styled statuses, and a cancellable order is never marked "Rental Active" |
| Orders.RentalActive | src/app/orders/page.tsx:279 | The "Rental Active" marker shows only for "in-progress", a styled status labelled "active" |
| Orders.CancelAndActiveExclusive | src/app/orders/page.tsx:279-287 | No order is both cancellable and marked "Rental Active", and both rules fire only for styled statuses |
| Orders.TabLabel | src/app/orders/page.tsx:186 | `replace("-", " ")` changes the first '-' to a space and nothing else; with no '-' the tab is unchanged |
| Orders.TabLabelKeepsLaterDashes | src/app/orders/page.tsx:186 | A '-' after the first stays a '-' |
| Orders.InProgressTabLabel | src/app/orders/page.tsx:180-186 | The "in-progress" tab reads "in progress" |
| Orders.NoDashTabLabel | src/app/orders/page.tsx:186 | A tab without '-' is its own label |
| Orders.CancelOutcome | src/app/orders/page.tsx:120-153 | Without confirmation nothing happens. Otherwise success refetches, a failure requiring a refund requests it, and any other failure shows the error or "Failed to cancel order" |
| Orders.CancelOutcomeSound | src/app/orders/page.tsx:120-153 | Refetch happens exactly after a confirmed success; a refund is requested only after a confirmed failure; an error message is never empty |
| Orders.RefundOutcome | src/app/orders/page.tsx:137-150 | Refetch happens exactly on a successful answer, with the refund amount message or the plain one. Failures show their error or the fallback, and a thrown request shows the retry message |
| Navbar.Hidden | src/components/Navbar.tsx:38-43 | A missing path never hides the bar, "/" always does, and every hiding path starts with '/' |
| Navbar.HiddenClosedUnderExtension | src/components/Navbar.tsx:38-43 | Extending a hidden path (other than "/") keeps it hidden |
| Navbar.HiddenExamples | src/components/Navbar.tsx:38-43 | "/authors", "/vendor/products" and "/" hide the bar; "/products" and a missing path show it |
| Navbar.LogoHref | src/components/Navbar.tsx:53-60 | The logo leads to the vendor dashboard for VENDOR, the admin dashboard for ADMIN, and "/" otherwise |
| Navbar.DashboardHref | src/components/Navbar.tsx:100-102 | The dashboard link exists exactly for VENDOR and ADMIN, pointing at that role's dashboard |
| Navbar.DashboardMatchesLogo | src/components/Navbar.tsx:53-102 | The dashboard link goes where the logo goes; without one the logo leads to "/" |
| Navbar.ShowBrowse | src/components/Navbar.tsx:66 | Browse is shown exactly when there is no dashboard link, and always without a session |
| Navbar.ShowCustomerLinks | src/components/Navbar.tsx:74 | The customer links need a session, and whoever sees them also sees Browse |
| Navbar.CustomerLinksImplyBrowse | src/components/Navbar.tsx:66-74 | A customer sees Browse and no dashboard link; a visitor without a session sees Browse but no customer links |
| Navbar.DesktopLinks | src/components/Navbar.tsx:66-108 | Non-customers other than vendors and admins see only Browse. Customers see Browse, Wishlist, Quotations and Orders in that order, and vendors and admins only their dashboard |
| Navbar.MobileLinks | src/components/Navbar.tsx:207-250 | The same three cases for the mobile menu, with its own link texts |
| Navbar.MobileMatchesDesktop | src/components/Navbar.tsx:207-250 | The mobile menu offers the same destinations in the same order as the desktop row |
| Navbar.Initials | src/components/Navbar.tsx:139-141 | The initials have 1 or 2 characters: "U" without a first name, else the first name's first letter, then the last name's first letter when there is one |
| Navbar.DisplayName | src/components/Navbar.tsx:146-148 | The name is never empty: "first last", else the account name, else the email, else "User" |
| Navbar.InitialsMatchDisplayName | src/components/Navbar.tsx:139-148 | With a first name, the initials and the display name start with the same letter |
| Navbar.MobileMenu.constructor | src/components/Navbar.tsx:35 | The menu starts closed |
| Navbar.MobileMenu.Toggle | src/components/Navbar.tsx:198 | The menu button flips the open state |
| Navbar.MobileMenu.FollowLink | src/components/Navbar.tsx:212-246 | Following any mobile link closes the menu |
| Wishlist.CountId | src/app/wishlist/page.tsx:53 | The number of entries with an id is 0 exactly when no entry has it |
| Wishlist.WithoutId | src/app/wishlist/page.tsx:53 | The filtered list holds exactly the entries whose id differs, and is shorter by the number that match |
| Wishlist.WithoutIdConcat | src/app/wishlist/page.tsx:53 | Filtering a concatenation concatenates the filtered parts, so the order is kept |
| Wishlist.WithoutIdIdempotent | src/app/wishlist/page.tsx:53 | Removing the same id twice changes nothing the second time |
| Wishlist.WithoutIdUnchanged | src/app/wishlist/page.tsx:53 | The filter leaves the list as it was exactly when no entry has the id |
| Wishlist.RemovalShrinksList | src/app/wishlist/page.tsx:53 | Removing a listed entry's id shortens the list and leaves no entry with that id |
| Wishlist.ProductUrl | src/app/wishlist/page.tsx:67 | The product link is "/products/" followed by the slug |
| Wishlist.AddToCartUrl | src/app/wishlist/page.tsx:63 | The add-to-cart link is the product link followed by "?action=add-to-cart" |
| Wishlist.CanAddToCart | src/app/wishlist/page.tsx:177 | Adding to the cart is offered exactly for entries in stock; its partner is `CartButtonFor` |
| Wishlist.SlugOf | src/app/wishlist/page.tsx:63-67 | A link under "/products/" yields the slug it was made from, and no other link yields one |
| Wishlist.LinksDetermineSlug | src/app/wishlist/page.tsx:63-67 | Each kind of link determines its slug: the product link reads back its slug, the add-to-cart link reads back the slug followed by the query, and two links of one kind are equal only for equal slugs |
| Wishlist.LinkKindsCollide | src/app/wishlist/page.tsx:63-67 | The two kinds can coincide: the product link of a slug ending in "?action=add-to-cart" is the add-to-cart link of the slug without it |
| Wishlist.CartButtonFor | src/app/wishlist/page.tsx:175-179 | The cart button is disabled and dimmed exactly when the entry is out of stock (`!CanAddToCart`); an enabled button leads to the add-to-cart link |
| Wishlist.RemoveToast | src/app/wishlist/page.tsx:54-56 | Success shows "Removed from wishlist"; a failure shows its error or the fallback, never an empty message |
| Wishlist.WishlistPage.constructor | src/app/wishlist/page.tsx:27-28 | The page starts empty and loading |
| Wishlist.WishlistPage.CurrentView | src/app/wishlist/page.tsx:70-105 | A spinner exactly while loading. Otherwise the empty state exactly for no entries, else the grid, whose header count is the number of entries |
| Wishlist.WishlistPage.BeginFetch | src/app/wishlist/page.tsx:37 | Loading is on while the fetch runs |
| Wishlist.WishlistPage.FinishFetch | src/app/wishlist/page.tsx:38-45 | Loading stops either way. A fetched list replaces the entries; a failed fetch keeps them and shows "Failed to load wishlist" |
| Wishlist.WishlistPage.RemoveFromWishlist | src/app/wishlist/page.tsx:50-57 | A confirmed removal drops every entry with the id and keeps the rest in order; a failed one leaves the list unchanged |

## Left out

- Server actions and network calls are not modelled. Their results are inputs to the modelled decisions instead:
  - `getCustomerQuotations` and `rejectQuotation`;
  - `getOrders` and `cancelOrder`;
  - the refund POST;
  - `getWishlist` and `removeFromWishlist`.
- `handleReject` and `handleAcceptAndPay` on the quotation page are not modelled: they are a server call with a toast, and a router push.
- Router pushes, toasts, `confirm`, `signOut` and the session hook are side effects. They appear only as the confirmation flag, the session input, the returned toast, and the URLs.
- React scheduling is not modelled: effects, transitions, the pending flag, and attaching and detaching window listeners. A render is an explicit `Render` call, and a pointer event is a method call on the slider.
- The unfinished `handleStart` of the slider is never attached to an element, so it is not modelled.
- The first effect's listeners are kept only as `EarlyDragTo`, with the lemma that they agree with the ref-based handler on the sidebar's domain. Their commit is guarded by the same ref, so it cannot add a second commit.
- Floating-point rounding is not modelled: the slider works over the reals and the prices over the integers. Values beyond 2^53 and JavaScript's exponent notation for numbers of 1e21 and more are outside the model.
- Track geometry from `getBoundingClientRect` is a parameter: the track's left edge and width.
- PriceSlider.DualRangeSlider.Move: requires a track width of at least 0, as DOM rectangles have; a negative width is not modelled. At width 0 with the pointer on the left edge the model reads fraction 0, where the source emits NaN (see `PriceSlider.EmittedLowAsWritten` and "## Findings").
- FilterSidebar.ProductFilterSidebar.PointerMove: built on `Move`, so at width 0 with the pointer on the left edge the model reads fraction 0, where the source emits NaN (see `PriceSlider.EmittedLowAsWritten`).
- FilterSidebar.ProductFilterSidebar.DragGesture: built on `Move`, so at width 0 with the pointer on the left edge the model reads fraction 0, where the source emits NaN and would commit a NaN token (see `PriceSlider.EmittedLowAsWritten`).
- Navbar.Initials: JavaScript's `firstName[0]` indexes UTF-16 code units, while Dafny strings index Unicode scalar values. For a name that starts outside the Basic Multilingual Plane, the source takes a lone surrogate and the model a whole character.
- PriceSlider.Percentage: requires min < max; with min == max the source divides by zero when drawing and that case is not modelled.
- The slider's domain is assumed to have `min < max` and a positive step, as the sidebar's props (0, 10000, 100) do. A degenerate domain is not modelled.
- PriceToken.Parse: there is no parser in the source. It is an independent partner for the token, and the round trip covers ranges with non-negative ends, which the price domain's ends always are.
- Dates and the current time are not modelled (`isPast`, `format`, `formatDistanceToNow`). A quotation's expiry is the boolean `validUntilPast`.
- Number formatting (`toLocaleString`, `toFixed`) and `toLowerCase` on the role label are not modelled.
- Styling is presentation only and is not modelled: class strings and the `.replace` calls on them, icons and layout. Only the key of the chosen style is modelled.
- Record lookups are own-key lookups. A status that names an `Object.prototype` member (such as `"constructor"`) is not modelled.
- The wishlist's image fallback, rating text and OUT OF STOCK banner are presentation only, and are not modelled.

## Findings

| source | as written | input that shows it | evidently intended | confidence | as-written member | corrected member |
|---|---|---|---|---|---|---|
| src/components/products/ProductFilterSidebar.tsx:153-164 | `(clientX - rect.left) / rect.width` is 0/0 = NaN on a zero-width track. NaN passes through `Math.max`, `Math.min` and `Math.round`, and `NaN !== currentMin` holds, so the slider emits `[NaN, high]` | min thumb pressed; then the track is hidden mid-drag (a hidden element's rectangle is all zeros) and the pointer moves at `clientX == 0` | the fraction is clamped to a number in [0, 1], so the emitted pair keeps the ordering invariant | low, not executed | PriceSlider.ZeroWidthTrackEmitsNaN | PriceSlider.Fraction |
