/** The site navigation bar: where it is hidden, which links each role sees,
    the avatar initials and display name, and the mobile menu toggle. */
module Navbar {
  import opened Common

  /** The signed-in user as the bar reads it; an empty string stands for a
      missing or empty field (both are falsy in JavaScript). */
  datatype Session = Session(role: Option<string>, firstName: string, lastName: string, name: string, email: string)

  /** The bar is hidden on the auth, vendor and admin areas (a plain prefix
      test, so "/authors" counts as auth) and on the landing page "/". With
      no path at all it is shown. */
  predicate Hidden(path: Option<string>)
    ensures path.None? ==> !Hidden(path)
    ensures path == Some("/") ==> Hidden(path)
    ensures Hidden(path) ==> |path.value| >= 1 && path.value[0] == '/'
  {
    match path
    case None => false
    case Some(p) => "/auth" <= p || "/vendor" <= p || "/admin" <= p || p == "/"
  }

  /** Extending a hidden path other than "/" keeps it hidden. */
  lemma HiddenClosedUnderExtension(p: string, suffix: string)
    requires Hidden(Some(p)) && p != "/"
    ensures Hidden(Some(p + suffix))
  {
  }

  /** The prefix test reaches past path boundaries, and a missing path shows
      the bar. */
  lemma HiddenExamples()
    ensures Hidden(Some("/authors"))
    ensures Hidden(Some("/vendor/products")) && Hidden(Some("/"))
    ensures !Hidden(None) && !Hidden(Some("/products"))
  {
    assert "/auth" <= "/authors";
    assert "/vendor" <= "/vendor/products";
    assert !("/auth" <= "/products") by { assert "/products"[1] != 'a'; }
    assert !("/vendor" <= "/products") by { assert "/products"[1] != 'v'; }
    assert !("/admin" <= "/products") by { assert "/products"[1] != 'a'; }
  }

  predicate HasRole(session: Option<Session>, role: string) {
    session.Some? && session.value.role == Some(role)
  }

  predicate IsVendor(session: Option<Session>) { HasRole(session, "VENDOR") }

  predicate IsAdmin(session: Option<Session>) { HasRole(session, "ADMIN") }

  /** Where the logo leads: the vendor or admin dashboard for those roles,
      the landing page for everyone else. */
  function LogoHref(session: Option<Session>): (href: string)
    ensures IsVendor(session) ==> href == "/vendor/dashboard"
    ensures IsAdmin(session) ==> href == "/admin/dashboard"
    ensures !IsVendor(session) && !IsAdmin(session) ==> href == "/"
  {
    if IsVendor(session) then "/vendor/dashboard"
    else if IsAdmin(session) then "/admin/dashboard"
    else "/"
  }

  /** The "Go to Dashboard" link: present for vendors and admins only. */
  function DashboardHref(session: Option<Session>): (href: Option<string>)
    ensures href.Some? <==> IsVendor(session) || IsAdmin(session)
    ensures IsVendor(session) ==> href == Some("/vendor/dashboard")
    ensures IsAdmin(session) ==> href == Some("/admin/dashboard")
  {
    if IsVendor(session) || IsAdmin(session) then
      Some(if IsVendor(session) then "/vendor/dashboard" else "/admin/dashboard")
    else None
  }

  /** The dashboard link, when there is one, goes where the logo goes. */
  lemma DashboardMatchesLogo(session: Option<Session>)
    ensures DashboardHref(session).Some? ==> DashboardHref(session).value == LogoHref(session)
    ensures DashboardHref(session).None? ==> LogoHref(session) == "/"
  {
  }

  /** "Browse" (and the Profile menu item) for anyone but vendors and admins. */
  predicate ShowBrowse(session: Option<Session>)
    ensures ShowBrowse(session) <==> DashboardHref(session).None?
    ensures session.None? ==> ShowBrowse(session)
  {
    !IsVendor(session) && !IsAdmin(session)
  }

  /** Wishlist, Quotations, Orders and the cart button: signed-in customers. */
  predicate ShowCustomerLinks(session: Option<Session>)
    ensures ShowCustomerLinks(session) ==> session.Some? && ShowBrowse(session)
  {
    HasRole(session, "CUSTOMER")
  }

  /** Customers always see Browse and never see a dashboard link; a visitor
      without a session sees Browse only. */
  lemma CustomerLinksImplyBrowse(session: Option<Session>)
    ensures ShowCustomerLinks(session) ==> ShowBrowse(session) && DashboardHref(session).None?
    ensures session.None? ==> ShowBrowse(session) && !ShowCustomerLinks(session)
  {
  }

  datatype Link = Link(href: string, text: string)

  /** The desktop link row, in order. */
  function DesktopLinks(session: Option<Session>): (links: seq<Link>)
    ensures ShowBrowse(session) && !ShowCustomerLinks(session) ==> links == [Link("/products", "Browse")]
    ensures ShowCustomerLinks(session) ==>
      links == [Link("/products", "Browse"), Link("/wishlist", "Wishlist"),
                Link("/quotations", "Quotations"), Link("/orders", "Orders")]
    ensures !ShowBrowse(session) ==> links == [Link(DashboardHref(session).value, "Go to Dashboard")]
  {
    (if ShowBrowse(session) then
       [Link("/products", "Browse")]
       + (if ShowCustomerLinks(session)
          then [Link("/wishlist", "Wishlist"), Link("/quotations", "Quotations"), Link("/orders", "Orders")]
          else [])
     else [])
    + (match DashboardHref(session)
       case Some(href) => [Link(href, "Go to Dashboard")]
       case None => [])
  }

  /** The mobile menu's links, in order. */
  function MobileLinks(session: Option<Session>): (links: seq<Link>)
    ensures ShowBrowse(session) && !ShowCustomerLinks(session) ==> links == [Link("/products", "Browse Products")]
    ensures ShowCustomerLinks(session) ==>
      links == [Link("/products", "Browse Products"), Link("/wishlist", "Wishlist"),
                Link("/quotations", "Quotations"), Link("/orders", "My Orders")]
    ensures !ShowBrowse(session) ==> links == [Link(DashboardHref(session).value, "Go to Dashboard")]
  {
    if ShowBrowse(session) then
      [Link("/products", "Browse Products")]
      + (if ShowCustomerLinks(session)
         then [Link("/wishlist", "Wishlist"), Link("/quotations", "Quotations"), Link("/orders", "My Orders")]
         else [])
    else [Link(DashboardHref(session).value, "Go to Dashboard")]
  }

  /** The mobile menu offers the same destinations, in the same order, as the
      desktop row; only some link texts differ. */
  lemma MobileMatchesDesktop(session: Option<Session>)
    ensures |MobileLinks(session)| == |DesktopLinks(session)|
    ensures forall i :: 0 <= i < |MobileLinks(session)| ==> MobileLinks(session)[i].href == DesktopLinks(session)[i].href
  {
  }

  /** The avatar fallback: the first letters of first and last name, or "U"
      without a first name. */
  function Initials(s: Session): (text: string)
    ensures 1 <= |text| <= 2
    ensures s.firstName == "" ==> text == "U"
    ensures s.firstName != "" ==> text[0] == s.firstName[0]
    ensures s.firstName != "" ==> (|text| == 2 <==> s.lastName != "")
    ensures |text| == 2 ==> text[1] == s.lastName[0]
  {
    if s.firstName != "" then
      [s.firstName[0]] + (if s.lastName != "" then [s.lastName[0]] else "")
    else "U"
  }

  /** The name beside the avatar: first and last name, else the account
      name, else the email, else "User". */
  function DisplayName(s: Session): (text: string)
    ensures text != ""
    ensures s.firstName != "" ==> text == s.firstName + " " + s.lastName
    ensures s.firstName == "" && s.name != "" ==> text == s.name
    ensures s.firstName == "" && s.name == "" && s.email != "" ==> text == s.email
    ensures text == "User" <== s.firstName == "" && s.name == "" && s.email == ""
  {
    if s.firstName != "" then s.firstName + " " + s.lastName
    else if s.name != "" then s.name
    else if s.email != "" then s.email
    else "User"
  }

  /** With a first name, the initials start the way the display name does. */
  lemma InitialsMatchDisplayName(s: Session)
    requires s.firstName != ""
    ensures Initials(s)[0] == DisplayName(s)[0]
  {
  }

  /** The mobile menu's open state. */
  class MobileMenu {
    var isMenuOpen: bool

    constructor ()
      ensures !isMenuOpen
    {
      isMenuOpen := false;
    }

    /** The menu button: `setIsMenuOpen(!isMenuOpen)`. */
    method Toggle()
      modifies this
      ensures isMenuOpen == !old(isMenuOpen)
    {
      isMenuOpen := !isMenuOpen;
    }

    /** Any mobile link: `setIsMenuOpen(false)`. */
    method FollowLink()
      modifies this
      ensures !isMenuOpen
    {
      isMenuOpen := false;
    }
  }
}
