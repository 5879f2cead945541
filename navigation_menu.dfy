// The web front end's navigation bar: menu items, menus holding an ordered
// list of children (items or further menus), and the "active" flags a page
// sets before rendering.

module Navigation {
  import opened PyRuntime

  /** The keyword arguments passed through to the URL lookup. */
  type Arguments = map<string, string>

  /** The web framework's `url_for`: the URL of an endpoint, or `None` when
      the framework cannot build one (its `BuildError`). */
  type UrlFor = (string, Arguments) -> Option<string>

  /** What an item records about its target: its endpoint name and link. */
  datatype Link = Link(name: string, href: string)

  const EmptyLink := "#"

  function LookupFailed(name: string): Error
  {
    Error(ValueError, "Unable to locate URL for " + name + ".")
  }

  /** The name and `href` an item or menu gets from its constructor
      arguments. An empty name gets the placeholder link without a lookup;
      any other name is looked up, and a failed lookup is a `ValueError`. */
  function Resolve(name: string, kwargs: Arguments, urlFor: UrlFor): (r: Result<Link>)
    ensures r.Err? <==> name != "" && urlFor(name, kwargs).None?
    ensures r.Err? ==> r.error == LookupFailed(name)
    ensures name == "" ==> r == Ok(Link(EmptyLink, EmptyLink))
    ensures r.Ok? && name != "" ==> r.value == Link(name, urlFor(name, kwargs).value)
    ensures r.Ok? ==> r.value.name != ""
  {
    if name != "" then
      match urlFor(name, kwargs)
      case Some(href) => Ok(Link(name, href))
      case None => Err(LookupFailed(name))
    else
      Ok(Link(EmptyLink, EmptyLink))
  }

  /** An empty name never consults the URL lookup: the outcome is the same
      whatever the lookup answers. */
  lemma EmptyNameNeedsNoLookup(kwargs: Arguments, u: UrlFor, w: UrlFor)
    ensures Resolve("", kwargs, u) == Resolve("", kwargs, w)
  {
  }

  /** A child of a menu: a plain item or a nested menu. */
  datatype Child = Item(item: NavigationMenuItem) | Submenu(submenu: NavigationMenu)

  function Obj(c: Child): object
  {
    match c
    case Item(i) => i
    case Submenu(m) => m
  }

  function Objects(cs: seq<Child>): set<object>
  {
    set i | 0 <= i < |cs| :: Obj(cs[i])
  }

  function TitleOf(c: Child): string
    reads Obj(c)
  {
    FixedOf(c).title
  }

  function ActiveOf(c: Child): bool
    reads Obj(c)
  {
    match c
    case Item(i) => i.active
    case Submenu(m) => m.active
  }

  /** Every field of a child except its `active` flag. */
  datatype Fixed = Fixed(title: string, name: string, href: string, isMenuItem: bool, children: seq<Child>)

  function FixedOf(c: Child): Fixed
    reads Obj(c)
  {
    match c
    case Item(i) => Fixed(i.title, i.name, i.href, i.isMenuItem, [])
    case Submenu(m) => Fixed(m.title, m.name, m.href, m.isMenuItem, m.menu)
  }

  /** One step of `set_active`'s loop over `cs`: the flag of child `i`
      becomes whether its title is `t`; every other object keeps its flag,
      and no field other than the flag changes. */
  method SetChildActive(cs: seq<Child>, i: nat, t: string)
    requires i < |cs|
    modifies Obj(cs[i])
    ensures forall j :: 0 <= j < |cs| ==> FixedOf(cs[j]) == old(FixedOf(cs[j]))
    ensures forall j :: 0 <= j < |cs| && Obj(cs[j]) == Obj(cs[i]) ==> ActiveOf(cs[j]) == (TitleOf(cs[j]) == t)
    ensures forall j :: 0 <= j < |cs| && Obj(cs[j]) != Obj(cs[i]) ==> ActiveOf(cs[j]) == old(ActiveOf(cs[j]))
  {
    match cs[i] {
      case Item(item) =>
        if item.title == t {
          item.active := true;
        } else {
          item.active := false;
        }
      case Submenu(sub) =>
        if sub.title == t {
          sub.active := true;
        } else {
          sub.active := false;
        }
    }
  }

  class NavigationMenuItem {
    var title: string
    var name: string
    var href: string
    var active: bool
    var isMenuItem: bool

    constructor Init(title: string, link: Link)
      ensures this.title == title && name == link.name && href == link.href
      ensures !active && isMenuItem
    {
      this.title := title;
      name := link.name;
      href := link.href;
      active := false;
      isMenuItem := true;
    }

    /** `NavigationMenuItem(title, name, **kwargs)`: a new inactive item, or
        the `ValueError` its constructor raises when the lookup fails. */
    static method Create(title: string, name: string, kwargs: Arguments, urlFor: UrlFor)
      returns (r: Result<NavigationMenuItem>)
      ensures r.Err? <==> name != "" && urlFor(name, kwargs).None?
      ensures r.Err? ==> r.error == LookupFailed(name)
      ensures r.Ok? ==>
        && fresh(r.value) && r.value.title == title
        && Link(r.value.name, r.value.href) == Resolve(name, kwargs, urlFor).value
        && !r.value.active && r.value.isMenuItem
    {
      var link := Resolve(name, kwargs, urlFor);
      if link.Err? {
        return Err(link.error);
      }
      var item := new NavigationMenuItem.Init(title, link.value);
      return Ok(item);
    }
  }

  class NavigationMenu {
    var title: string
    var name: string
    var href: string
    var active: bool
    var isMenuItem: bool
    var menu: seq<Child>

    constructor Init(title: string, link: Link)
      ensures this.title == title && name == link.name && href == link.href
      ensures !active && !isMenuItem && menu == []
    {
      this.title := title;
      name := link.name;
      href := link.href;
      active := false;
      isMenuItem := false;
      menu := [];
    }

    /** `NavigationMenu(title, name, **kwargs)`: a new inactive, empty menu,
        named and linked as an item would be, or the `ValueError` raised when
        the lookup fails. */
    static method Create(title: string, name: string, kwargs: Arguments, urlFor: UrlFor)
      returns (r: Result<NavigationMenu>)
      ensures r.Err? <==> name != "" && urlFor(name, kwargs).None?
      ensures r.Err? ==> r.error == LookupFailed(name)
      ensures r.Ok? ==>
        && fresh(r.value) && r.value.title == title
        && Link(r.value.name, r.value.href) == Resolve(name, kwargs, urlFor).value
        && !r.value.active && !r.value.isMenuItem && r.value.Iter() == []
    {
      var link := Resolve(name, kwargs, urlFor);
      if link.Err? {
        return Err(link.error);
      }
      var m := new NavigationMenu.Init(title, link.value);
      return Ok(m);
    }

    /** The children in the order iteration yields them. */
    function Iter(): seq<Child>
      reads this
    {
      menu
    }

    /** Appends a child; iteration then yields it after all earlier ones. */
    method Add(child: Child)
      modifies this`menu
      ensures Iter() == old(Iter()) + [child]
      ensures |Iter()| == |old(Iter())| + 1 && Iter()[|Iter()| - 1] == child
    {
      menu := menu + [child];
    }

    /** Marks the menu active when its own title is `t`, touching no child.
        Otherwise the menu becomes inactive and each direct child active
        exactly when its title is `t`; grandchildren are not visited, and no
        field other than the flags changes. */
    method SetActive(t: string)
      modifies this`active, Objects(menu)
      ensures menu == old(menu) && title == old(title)
      ensures old(title) == t ==> active && unchanged(Objects(menu) - {this})
      ensures old(title) != t ==> !active
      ensures old(title) != t ==>
        forall i :: 0 <= i < |menu| ==> ActiveOf(menu[i]) == (TitleOf(menu[i]) == t)
      ensures forall i :: 0 <= i < |menu| ==> FixedOf(menu[i]) == old(FixedOf(menu[i]))
    {
      if title == t {
        active := true;
        return;
      } else {
        active := false;
      }
      var i := 0;
      while i < |menu|
        invariant 0 <= i <= |menu|
        invariant menu == old(menu) && title == old(title) && !active
        invariant forall j :: 0 <= j < |menu| ==> FixedOf(menu[j]) == old(FixedOf(menu[j]))
        invariant forall j :: 0 <= j < i ==> ActiveOf(menu[j]) == (TitleOf(menu[j]) == t)
      {
        SetChildActive(menu, i, t);
        i := i + 1;
      }
    }
  }
}
