/**
 * The practice-projects page: a fixed list of projects, a category selection,
 * the featured subset, colour and icon lookups, technology badges capped at
 * three and the heading of the project grid.
 */
module Projects {
  import opened Wrappers
  import Sequences
  import Badges
  import Courses
  import Text

  /** The icons the page draws for categories. */
  datatype Icon = FolderOpen | Globe | Smartphone | Database | Code | Cpu

  datatype Category = Category(id: string, caption: string, icon: Icon)  // `label` in the source

  datatype Project = Project(
    id: string,
    title: string,
    description: string,
    category: string,
    difficulty: string,
    technologies: seq<string>,
    githubUrl: Option<string>,
    liveUrl: Option<string>,
    duration: string,
    featured: bool)

  /** The project list, in page order. */
  const Catalog: seq<Project> := [
    Project("todo-app", "Todo List Application",
      "Build a full-featured todo application with React and local storage. Learn component state management, event handling, and data persistence.",
      "web-development", "beginner", ["React", "JavaScript", "CSS", "Local Storage"],
      Some("https://github.com/microsoft/TodoMVC"), Some("https://todomvc.com/examples/react/"), "2-3 hours", true),
    Project("weather-app", "Weather Dashboard",
      "Create a responsive weather application that fetches data from weather APIs. Includes location detection, 5-day forecast, and beautiful UI.",
      "web-development", "intermediate", ["React", "API Integration", "Responsive Design", "Charts"],
      Some("https://github.com/apixu/apixu-weather-widget"), Some("https://weather-app-react-ts.vercel.app/"), "1-2 days", true),
    Project("ecommerce-api", "E-commerce REST API",
      "Build a complete e-commerce backend with user authentication, product management, shopping cart, and payment processing.",
      "backend", "advanced", ["Node.js", "Express", "MongoDB", "JWT", "Stripe"],
      Some("https://github.com/kelektiv/node.bcrypt.js"), None, "1-2 weeks", false),
    Project("mobile-expense-tracker", "Mobile Expense Tracker",
      "React Native app for tracking daily expenses with categories, charts, and budget alerts. Includes offline functionality.",
      "mobile", "intermediate", ["React Native", "SQLite", "Charts", "Push Notifications"],
      Some("https://github.com/expo/examples"), Some("https://snack.expo.dev/@expo/expense-tracker"), "1 week", true),
    Project("blog-cms", "Blog Content Management System",
      "Full-stack blog application with admin panel, rich text editor, comment system, and SEO optimization.",
      "full-stack", "advanced", ["Next.js", "PostgreSQL", "Prisma", "TailwindCSS", "Vercel"],
      Some("https://github.com/vercel/next.js/tree/canary/examples/blog"), Some("https://next-blog-starter.vercel.app/"), "2-3 weeks", false),
    Project("data-visualization", "Sales Data Visualization",
      "Interactive dashboard for visualizing sales data with multiple chart types, filters, and real-time updates.",
      "data-science", "intermediate", ["Python", "Pandas", "Plotly", "Streamlit", "CSV Processing"],
      Some("https://github.com/plotly/dash-sample-apps"), Some("https://dash-gallery.plotly.host/dash-oil-and-gas/"), "3-5 days", false),
    Project("social-media-app", "Social Media Platform",
      "Build a complete social media platform with user profiles, posts, comments, likes, and real-time chat functionality.",
      "full-stack", "advanced", ["React", "Node.js", "Socket.io", "PostgreSQL", "JWT"],
      Some("https://github.com/adrianhajdin/social_media_app"), Some("https://demo-social-media-app.vercel.app/"), "2-3 weeks", false),
    Project("portfolio-website", "Professional Portfolio Website",
      "Create a stunning personal portfolio website with animations, dark mode, and responsive design.",
      "web-development", "intermediate", ["React", "Three.js", "Framer Motion", "TailwindCSS"],
      Some("https://github.com/bchiang7/v4"), Some("https://brittanychiang.com/"), "1-2 weeks", false)
  ]

  /** The category buttons, "all" first. */
  const Categories: seq<Category> := [
    Category("all", "All Projects", FolderOpen),
    Category("web-development", "Web Development", Globe),
    Category("mobile", "Mobile Apps", Smartphone),
    Category("backend", "Backend", Database),
    Category("full-stack", "Full Stack", Code),
    Category("data-science", "Data Science", Cpu)
  ]

  predicate InSelection(project: Project, selectedCategory: string)
  {
    selectedCategory == "all" || project.category == selectedCategory
  }

  /** The projects of `projects` in the selected category, in order, each as often as it occurs. */
  function SelectProjects(projects: seq<Project>, selectedCategory: string): (r: seq<Project>)
    ensures Sequences.IsSubsequence(r, projects)
    ensures forall p :: multiset(r)[p] == if InSelection(p, selectedCategory) then multiset(projects)[p] else 0
  {
    var keep := (p: Project) => InSelection(p, selectedCategory);
    Sequences.FilterIsSubsequence(projects, keep);
    Sequences.FilterCount(projects, keep);
    Sequences.Filter(projects, keep)
  }

  /** `filteredProjects`: the catalog narrowed by the selected category. */
  function FilteredProjects(selectedCategory: string): seq<Project>
  {
    SelectProjects(Catalog, selectedCategory)
  }

  /** Under "all" nothing is dropped. */
  lemma AllSelectsEverything(projects: seq<Project>)
    ensures SelectProjects(projects, "all") == projects
  {
    Sequences.FilterKeepsAll(projects, (p: Project) => InSelection(p, "all"));
  }

  /** The page's list under "all" is the whole catalog, in page order. */
  lemma UnfilteredIsCatalog()
    ensures FilteredProjects("all") == Catalog
  {
    AllSelectsEverything(Catalog);
  }

  /** Under any other selection a project is kept exactly when its category is the selection. */
  lemma CategorySelection(projects: seq<Project>, selectedCategory: string, p: Project)
    requires selectedCategory != "all"
    ensures p in SelectProjects(projects, selectedCategory) <==> p in projects && p.category == selectedCategory
  {
    assert p in SelectProjects(projects, selectedCategory) <==> multiset(SelectProjects(projects, selectedCategory))[p] > 0;
  }

  /** The projects of `projects` marked featured, in order, each as often as it occurs. */
  function FeaturedOf(projects: seq<Project>): (r: seq<Project>)
    ensures Sequences.IsSubsequence(r, projects)
    ensures forall p :: multiset(r)[p] == if p.featured then multiset(projects)[p] else 0
  {
    var keep := (p: Project) => p.featured;
    Sequences.FilterIsSubsequence(projects, keep);
    Sequences.FilterCount(projects, keep);
    Sequences.Filter(projects, keep)
  }

  /** `featuredProjects`: it does not depend on the selected category. */
  function FeaturedProjects(): seq<Project>
  {
    FeaturedOf(Catalog)
  }

  /** A featured project is also among the projects listed under "all". */
  lemma FeaturedListedUnderAll(projects: seq<Project>, p: Project)
    requires p in FeaturedOf(projects)
    ensures p in SelectProjects(projects, "all") && p.featured
  {
    assert multiset(FeaturedOf(projects))[p] > 0;
    AllSelectsEverything(projects);
  }

  /** `getDifficultyColor`: three known difficulties, gray for anything else. */
  function DifficultyColor(difficulty: string): (cls: string)
    ensures difficulty == "beginner" <==> cls == Courses.Green
    ensures difficulty == "intermediate" <==> cls == Courses.Yellow
    ensures difficulty == "advanced" <==> cls == Courses.Red
    ensures difficulty != "beginner" && difficulty != "intermediate" && difficulty != "advanced" <==> cls == Courses.Gray
  {
    match difficulty
    case "beginner" => "bg-green-100 text-green-800"
    case "intermediate" => "bg-yellow-100 text-yellow-800"
    case "advanced" => "bg-red-100 text-red-800"
    case _ => "bg-gray-100 text-gray-800"
  }

  /** The projects page colours difficulties exactly as the courses page colours levels. */
  lemma DifficultyColorIsLevelColor(difficulty: string)
    ensures DifficultyColor(difficulty) == Courses.LevelColor(difficulty)
  {
  }

  /** `getCategoryIcon`: five known categories, the folder icon for anything else. */
  function CategoryIcon(category: string): (icon: Icon)
    ensures icon == Globe <==> category == "web-development"
    ensures icon == Smartphone <==> category == "mobile"
    ensures icon == Database <==> category == "backend"
    ensures icon == Code <==> category == "full-stack"
    ensures icon == Cpu <==> category == "data-science"
    ensures icon == FolderOpen <==>
      category !in {"web-development", "mobile", "backend", "full-stack", "data-science"}
  {
    match category
    case "web-development" => Globe
    case "mobile" => Smartphone
    case "backend" => Database
    case "full-stack" => Code
    case "data-science" => Cpu
    case _ => FolderOpen
  }

  /** A project card shows the same icon as the button of its category. */
  lemma CardIconMatchesButton()
    ensures forall k :: k in Categories ==> CategoryIcon(k.id) == k.icon
  {
  }

  /** `categories.find(c => c.id === id)`: the first category with that id, if any. */
  function FindCategory(categories: seq<Category>, id: string): (r: Option<Category>)
    ensures r.Some? ==> exists i :: 0 <= i < |categories| && categories[i] == r.value && r.value.id == id &&
                                    forall j :: 0 <= j < i ==> categories[j].id != id
    ensures r.None? <==> forall k :: k in categories ==> k.id != id
  {
    if categories == [] then None
    else if categories[0].id == id then Some(categories[0])
    else
      var r := FindCategory(categories[1..], id);
      if r.Some? then
        var i :| 0 <= i < |categories[1..]| && categories[1..][i] == r.value && r.value.id == id &&
                 forall j :: 0 <= j < i ==> categories[1..][j].id != id;
        assert categories[i + 1] == r.value;
        r
      else
        assert forall k :: k in categories[1..] ==> k.id != id;
        assert forall k :: k in categories ==> k == categories[0] || k in categories[1..];
        r
  }

  /**
   * The heading of the project grid: "All Projects" under "all", otherwise the
   * caption of the selected category, or nothing when no category has that id.
   */
  function Heading(selectedCategory: string): Option<string>
  {
    if selectedCategory == "all" then Some("All Projects")
    else
      match FindCategory(Categories, selectedCategory)
      case Some(k) => Some(k.caption)
      case None => None
  }

  predicate DistinctIds(categories: seq<Category>)
  {
    forall a, b :: 0 <= a < b < |categories| ==> categories[a].id != categories[b].id
  }

  /** When ids are distinct, the search finds the one category carrying the id. */
  lemma FindUnique(categories: seq<Category>, k: Category)
    requires DistinctIds(categories) && k in categories
    ensures FindCategory(categories, k.id) == Some(k)
  {
    var r := FindCategory(categories, k.id);
    var i :| 0 <= i < |categories| && categories[i] == r.value && r.value.id == k.id;
    var j :| 0 <= j < |categories| && categories[j] == k;
    assert i == j;
  }

  /** Every button leads to a heading that is its own caption; an unknown id leaves it empty. */
  lemma HeadingIsCaption(selectedCategory: string)
    ensures forall k :: k in Categories && k.id == selectedCategory ==> Heading(selectedCategory) == Some(k.caption)
    ensures (forall k :: k in Categories ==> k.id != selectedCategory) ==> Heading(selectedCategory) == None
  {
    assert DistinctIds(Categories);
    forall k | k in Categories && k.id == selectedCategory
      ensures Heading(selectedCategory) == Some(k.caption)
    {
      FindUnique(Categories, k);
    }
  }

  /** The technology badges of a card: the first three, then "+N more" for the rest. */
  function TechnologyBadges(project: Project): (row: Badges.Row)
    ensures |project.technologies| <= 3 ==> row.shown == project.technologies && row.more == None
    ensures |project.technologies| > 3 ==>
      row.shown == project.technologies[..3] && row.more == Some(|project.technologies| - 3)
  {
    Badges.Truncate(project.technologies, 3)
  }

  /** With more than three technologies a card ends in "+N more", N counting the technologies not shown. */
  lemma TechnologyOverflowCaption(project: Project)
    requires |project.technologies| > 3
    ensures var captions := Badges.Captions(TechnologyBadges(project));
            var last := captions[|captions| - 1];
            |captions| == 4 && captions[..3] == project.technologies[..3] &&
            |last| >= 7 && last[..1] == "+" && last[|last| - 5..] == " more" &&
            (forall i :: 1 <= i < |last| - 5 ==> Text.IsDigit(last[i])) &&
            Text.DigitsValue(last[1..|last| - 5]) == |project.technologies| - 3
  {
  }
}
