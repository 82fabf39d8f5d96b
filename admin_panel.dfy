/**
 * The in-memory state of the admin console's AdminPanel controller
 * (admin.js:4-470) and the handlers that change it.
 *
 * Network replies and the answers to `confirm` dialogs are parameters of the
 * handlers. What the handlers do to the page is recorded in three ghost
 * logs: the notifications shown, the requests sent (each with the state of
 * the add-product submit button at the moment it was sent), and the other
 * page actions (renders, modal hiding, form resets, stats updates).
 *
 * The shipped admin.js does not parse: a stray '}' closes the class at
 * line 183, showSection and getSectionTitle have no braces (lines 185 and
 * 197), getSectionTitle never returns its table, and an extra '}' follows
 * the class at line 473. The model follows the evident intended code.
 */
module AdminConsole {
  import opened Wrappers
  import opened Sequences
  import opened Remote
  import opened Forms
  import opened ProductView
  import opened Sections
  import opened Notifications

  /** A user record as the backend lists it; `id` is an integer. */
  datatype User = User(id: int, username: string, email: string, role: string, status: string)

  /** Orders are passed through without being looked at. */
  datatype Order = Order(id: string)

  /** The body of POST /users, built by addUser. */
  datatype NewUser = NewUser(
    username: Option<FieldValue>,
    email: Option<FieldValue>,
    password: Option<FieldValue>,
    role: Option<FieldValue>,
    status: string)

  /** A request to the backend. */
  datatype Request =
    | ListProducts                   // GET /products
    | PostProduct(form: FormData)    // POST /products, multipart
    | RemoveProduct(productId: string) // DELETE /products/{id}
    | ListUsers                      // GET /users
    | PostUser(user: NewUser)        // POST /users, JSON

  /** A request as sent, with whether the add-product submit button was disabled then. */
  datatype Sent = Sent(request: Request, submitLocked: bool)

  /** One notification of showNotification: its message, type and icon. */
  datatype Notification = Notification(message: string, kind: string, icon: string)

  /** Page actions other than notifications. */
  datatype PageAction =
    | RenderProducts
    | RenderUsers
    | UpdateStats
    | HideAllModals
    | ResetForm(formId: string)

  /** The notification showNotification(message, kind) puts on the page. */
  function Note(message: string, kind: string): Notification
  {
    Notification(message, kind, NotificationIcon(kind))
  }

  /** `this.users.filter(u => u.id !== id)`: the users left after a local deletion. */
  function WithoutUser(users: seq<User>, id: int): (r: seq<User>)
    ensures |r| <= |users|
    ensures forall i :: 0 <= i < |r| ==> r[i].id != id
  {
    Filter(users, (u: User) => u.id != id)
  }

  /**
   * Deleting a user removes exactly the users with that id: every other user
   * is kept, as often as it occurred, in its original order.
   */
  lemma WithoutUserKeepsOthers(users: seq<User>, id: int, u: User)
    ensures IsSubsequence(WithoutUser(users, id), users)
    ensures multiset(WithoutUser(users, id))[u] == if u.id == id then 0 else multiset(users)[u]
    ensures u in WithoutUser(users, id) <==> u in users && u.id != id
  {
    FilterIsSubsequence(users, (v: User) => v.id != id);
    FilterCounts(users, (v: User) => v.id != id, u);
    FilterMembership(users, (v: User) => v.id != id, u);
  }

  /** Deleting an id that no user has leaves the list as it was. */
  lemma WithoutAbsentUser(users: seq<User>, id: int)
    requires forall i :: 0 <= i < |users| ==> users[i].id != id
    ensures WithoutUser(users, id) == users
  {
    FilterKeepsAll(users, (v: User) => v.id != id);
  }

  /** Notifications a load adds: none on success, one error otherwise. */
  function LoadNotes<T>(reply: Reply<T>, prefix: string, fallback: string): seq<Notification>
  {
    if reply.Ok? then [] else [Note(prefix + Reason(reply, fallback), "error")]
  }

  class AdminPanel {
    var currentSection: Section
    var products: seq<Product>
    var users: seq<User>
    var orders: seq<Order>
    /** The sections and navigation links that carry the 'active' class. */
    var activeSections: set<Section>
    var activeLinks: set<Section>
    /** The text of the 'page-title' element. */
    var pageTitle: string
    /** `disabled` of the add-product form's submit button. */
    var submitDisabled: bool

    ghost var notifications: seq<Notification>
    ghost var sent: seq<Sent>
    ghost var actions: seq<PageAction>

    /**
     * The navigation shows the current section, and at most that section is
     * displayed (none only after a switch to a name with no section).
     */
    ghost predicate SectionsShown()
      reads this
    {
      activeLinks == {currentSection}
      && activeSections <= {currentSection}
      && pageTitle == Title(currentSection)
    }

    /** Between handlers the submit button is released. */
    ghost predicate Valid()
      reads this
    {
      SectionsShown() && !submitDisabled
    }

    /**
     * `new AdminPanel()`: the fields of admin.js:6-9, then init() loads the
     * products and the users. admin.js sets only `currentSection`; the model
     * assumes the page markup starts with the dashboard section and its link
     * marked active and "Dashboard" as the page title.
     */
    constructor (productsReply: Reply<seq<Product>>, usersReply: Reply<seq<User>>)
      ensures Valid()
      ensures currentSection == Dashboard && activeSections == {Dashboard}
      ensures products == (if productsReply.Ok? then productsReply.body else [])
      ensures users == (if usersReply.Ok? then usersReply.body else [])
      ensures orders == []
      ensures actions == (if productsReply.Ok? then [RenderProducts] else [])
                         + (if usersReply.Ok? then [RenderUsers] else [])
      ensures sent == [Sent(ListProducts, false), Sent(ListUsers, false)]
      ensures notifications == LoadNotes(productsReply, "Error loading products: ", "Failed to fetch products")
                               + LoadNotes(usersReply, "Error loading users: ", "Failed to fetch users")
    {
      currentSection := Dashboard;
      products := [];
      users := [];
      orders := [];
      activeSections := {Dashboard};
      activeLinks := {Dashboard};
      pageTitle := Title(Dashboard);
      submitDisabled := false;
      notifications := [];
      sent := [];
      actions := [];
      new;
      LoadProducts(productsReply);
      LoadUsers(usersReply);
    }

    /** showNotification(message, type): the timers and markup are not modelled. */
    method ShowNotification(message: string, kind: string)
      modifies this`notifications
      ensures notifications == old(notifications) + [Note(message, kind)]
    {
      notifications := notifications + [Note(message, kind)];
    }

    /** Sends a request; the reply is a parameter of the calling handler. */
    method Send(request: Request)
      modifies this`sent
      ensures sent == old(sent) + [Sent(request, submitDisabled)]
    {
      sent := sent + [Sent(request, submitDisabled)];
    }

    /** Records a page action. */
    method Act(action: PageAction)
      modifies this`actions
      ensures actions == old(actions) + [action]
    {
      actions := actions + [action];
    }

    /**
     * showSection (admin.js:185-195): clears the active mark of every section,
     * then activates the named one and its link, sets the title and the
     * current section. A name with no section element makes
     * `getElementById` return null, and the handler throws right after the
     * marks were cleared.
     */
    method ShowSection(name: string) returns (shown: bool)
      requires SectionsShown()
      modifies this`activeSections, this`activeLinks, this`pageTitle, this`currentSection
      ensures SectionsShown()
      ensures shown <==> SectionNamed(name).Some?
      ensures shown ==> Id(currentSection) == name && activeSections == {currentSection}
                        && pageTitle == SectionTitle(name).value
      ensures !shown ==> activeSections == {} && currentSection == old(currentSection)
                         && activeLinks == old(activeLinks) && pageTitle == old(pageTitle)
    {
      activeSections := {};
      var target := SectionNamed(name);
      if target.None? {
        return false;
      }
      var s := target.value;
      activeSections := activeSections + {s};
      activeLinks := {s};
      pageTitle := SectionTitle(name).value;
      currentSection := s;
      shown := true;
    }

    /**
     * loadProducts (admin.js:209-218): on success the list is replaced
     * wholesale by the reply and rendered; otherwise it is left alone and one
     * error notification is shown.
     */
    method LoadProducts(reply: Reply<seq<Product>>)
      modifies this`products, this`sent, this`notifications, this`actions
      ensures old(Valid()) ==> Valid()
      ensures products == (if reply.Ok? then reply.body else old(products))
      ensures sent == old(sent) + [Sent(ListProducts, submitDisabled)]
      ensures notifications == old(notifications) + LoadNotes(reply, "Error loading products: ", "Failed to fetch products")
      ensures actions == old(actions) + (if reply.Ok? then [RenderProducts] else [])
    {
      Send(ListProducts);
      if reply.Ok? {
        products := reply.body;
        Act(RenderProducts);
      } else {
        ShowNotification("Error loading products: " + Reason(reply, "Failed to fetch products"), "error");
      }
    }

    /** loadUsers (admin.js:324-333), the same policy for the user list. */
    method LoadUsers(reply: Reply<seq<User>>)
      modifies this`users, this`sent, this`notifications, this`actions
      ensures old(Valid()) ==> Valid()
      ensures users == (if reply.Ok? then reply.body else old(users))
      ensures sent == old(sent) + [Sent(ListUsers, submitDisabled)]
      ensures notifications == old(notifications) + LoadNotes(reply, "Error loading users: ", "Failed to fetch users")
      ensures actions == old(actions) + (if reply.Ok? then [RenderUsers] else [])
    {
      Send(ListUsers);
      if reply.Ok? {
        users := reply.body;
        Act(RenderUsers);
      } else {
        ShowNotification("Error loading users: " + Reason(reply, "Failed to fetch users"), "error");
      }
    }

    /**
     * The success path of addProduct's try block (admin.js:285-289): report,
     * reload the products, update the stats, hide the modals, reset the form.
     */
    method ProductAdded(reload: Reply<seq<Product>>)
      modifies this`products, this`sent, this`notifications, this`actions
      ensures products == (if reload.Ok? then reload.body else old(products))
      ensures sent == old(sent) + [Sent(ListProducts, submitDisabled)]
      ensures notifications == old(notifications) + [Note("Product added successfully!", "success")]
                               + LoadNotes(reload, "Error loading products: ", "Failed to fetch products")
      ensures actions == old(actions) + (if reload.Ok? then [RenderProducts] else [])
                         + [UpdateStats, HideAllModals, ResetForm("add-product-form")]
    {
      ShowNotification("Product added successfully!", "success");
      LoadProducts(reload);
      Act(UpdateStats);
      Act(HideAllModals);
      Act(ResetForm("add-product-form"));
    }

    /**
     * addProduct (admin.js:261-295). `form` is None when the page has no
     * add-product form; `reply` answers the POST and `reload` the GET that
     * follows a successful one. The submit button is disabled for the
     * duration and released on every path.
     */
    method AddProduct(form: Option<FormData>, reply: Reply<()>, reload: Reply<seq<Product>>)
      requires Valid()
      modifies this`submitDisabled, this`products, this`sent, this`notifications, this`actions
      ensures Valid()
      ensures form.None? ==>
        products == old(products) && sent == old(sent)
        && notifications == old(notifications) && actions == old(actions)
      ensures form.Some? && MissingRequired(form.value) ==>
        products == old(products) && sent == old(sent) && actions == old(actions)
        && notifications == old(notifications) + [Note("Please fill in all required fields.", "error")]
      ensures form.Some? && !MissingRequired(form.value) && reply.Ok? ==>
        && products == (if reload.Ok? then reload.body else old(products))
        && sent == old(sent) + [Sent(PostProduct(Append(form.value, "status", "active")), true),
                                Sent(ListProducts, true)]
        && notifications == old(notifications) + [Note("Product added successfully!", "success")]
                            + LoadNotes(reload, "Error loading products: ", "Failed to fetch products")
        && actions == old(actions) + (if reload.Ok? then [RenderProducts] else [])
                      + [UpdateStats, HideAllModals, ResetForm("add-product-form")]
      ensures form.Some? && !MissingRequired(form.value) && !reply.Ok? ==>
        && products == old(products)
        && sent == old(sent) + [Sent(PostProduct(Append(form.value, "status", "active")), true)]
        && notifications == old(notifications)
                            + [Note("Error adding product: " + ReasonFromBody(reply, "Failed to add product"), "error")]
        && actions == old(actions)
    {
      if form.None? {
        return;
      }
      submitDisabled := true;
      var fd := form.value;
      if MissingRequired(fd) {
        ShowNotification("Please fill in all required fields.", "error");
        submitDisabled := false;
        return;
      }
      var body := Append(fd, "status", "active");
      Send(PostProduct(body));
      if reply.Ok? {
        ProductAdded(reload);
      } else {
        ShowNotification("Error adding product: " + ReasonFromBody(reply, "Failed to add product"), "error");
      }
      submitDisabled := false;
    }

    /**
     * addUser (admin.js:356-381): no client-side validation and no button
     * handling; the new user is created with status 'active'.
     */
    method AddUser(form: FormData, reply: Reply<()>, reload: Reply<seq<User>>)
      requires Valid()
      modifies this`users, this`sent, this`notifications, this`actions
      ensures Valid()
      ensures
        var post := Sent(PostUser(NewUser(Get(form, "username"), Get(form, "email"),
                                            Get(form, "password"), Get(form, "role"), "active")),
                         submitDisabled);
        if reply.Ok? then
          && users == (if reload.Ok? then reload.body else old(users))
          && sent == old(sent) + [post, Sent(ListUsers, submitDisabled)]
          && notifications == old(notifications) + [Note("User added successfully!", "success")]
                              + LoadNotes(reload, "Error loading users: ", "Failed to fetch users")
          && actions == old(actions) + (if reload.Ok? then [RenderUsers] else [])
                        + [UpdateStats, HideAllModals, ResetForm("add-user-form")]
        else
          && users == old(users)
          && sent == old(sent) + [post]
          && notifications == old(notifications)
                              + [Note("Error adding user: " + Reason(reply, "Failed to add user"), "error")]
          && actions == old(actions)
    {
      var user := NewUser(Get(form, "username"), Get(form, "email"),
                          Get(form, "password"), Get(form, "role"), "active");
      Send(PostUser(user));
      if reply.Ok? {
        ShowNotification("User added successfully!", "success");
        LoadUsers(reload);
        Act(UpdateStats);
        Act(HideAllModals);
        Act(ResetForm("add-user-form"));
      } else {
        ShowNotification("Error adding user: " + Reason(reply, "Failed to add user"), "error");
      }
    }

    /**
     * deleteProduct (admin.js:304-318): nothing happens unless confirmed; the
     * local list changes only through the reload after a successful DELETE.
     */
    method DeleteProduct(id: string, confirmed: bool, reply: Reply<()>, reload: Reply<seq<Product>>)
      requires Valid()
      modifies this`products, this`sent, this`notifications, this`actions
      ensures Valid()
      ensures !confirmed ==>
        products == old(products) && sent == old(sent)
        && notifications == old(notifications) && actions == old(actions)
      ensures confirmed && reply.Ok? ==>
        && products == (if reload.Ok? then reload.body else old(products))
        && sent == old(sent) + [Sent(RemoveProduct(id), submitDisabled), Sent(ListProducts, submitDisabled)]
        && notifications == old(notifications) + [Note("Product deleted successfully!", "success")]
                            + LoadNotes(reload, "Error loading products: ", "Failed to fetch products")
        && actions == old(actions) + (if reload.Ok? then [RenderProducts] else []) + [UpdateStats]
      ensures confirmed && !reply.Ok? ==>
        && products == old(products)
        && sent == old(sent) + [Sent(RemoveProduct(id), submitDisabled)]
        && notifications == old(notifications)
                            + [Note("Error deleting product: " + Reason(reply, "Failed to delete product"), "error")]
        && actions == old(actions)
    {
      if !confirmed {
        return;
      }
      Send(RemoveProduct(id));
      if reply.Ok? {
        ShowNotification("Product deleted successfully!", "success");
        LoadProducts(reload);
        Act(UpdateStats);
      } else {
        ShowNotification("Error deleting product: " + Reason(reply, "Failed to delete product"), "error");
      }
    }

    /**
     * deleteUser (admin.js:390-397): unlike the product deletion this one
     * sends no request; it drops the users with the id from the local list.
     */
    method DeleteUser(id: int, confirmed: bool)
      requires Valid()
      modifies this`users, this`notifications, this`actions
      ensures Valid()
      ensures users == (if confirmed then WithoutUser(old(users), id) else old(users))
      ensures !confirmed ==> notifications == old(notifications) && actions == old(actions)
      ensures confirmed ==>
        && notifications == old(notifications) + [Note("User deleted successfully!", "success")]
        && actions == old(actions) + [RenderUsers, UpdateStats]
    {
      if confirmed {
        users := WithoutUser(users, id);
        Act(RenderUsers);
        Act(UpdateStats);
        ShowNotification("User deleted successfully!", "success");
      }
    }
  }
}
