/**
 * The courses page: a fixed catalog of free courses, filtered by a search
 * text and a selected category, with a colour class per course level.
 */
module Courses {
  import opened Wrappers
  import opened Text
  import Sequences

  datatype Category = Category(id: string, caption: string)  // `label` in the source; a keyword in Dafny

  datatype Course = Course(
    id: string,
    title: string,
    description: string,
    instructor: Option<string>,
    duration: string,
    level: string,
    category: string,
    imageUrl: string,
    courseUrl: string,
    price: string)

  /** The category buttons, "all" first. */
  const Categories: seq<Category> := [
    Category("all", "All Courses"),
    Category("frontend", "Frontend"),
    Category("backend", "Backend"),
    Category("testing", "Testing"),
    Category("cyber-security", "Cyber Security"),
    Category("devops", "DevOps"),
    Category("sap", "SAP")
  ]

  function Free(id: string, title: string, description: string, duration: string, level: string,
                category: string, image: string, url: string): Course
  {
    Course(id, title, description, Some("GeeksforGeeks"), duration, level, category,
           "/images/" + image, "https://www.geeksforgeeks.org/" + url, "Free")
  }

  /** The catalog the page filters, in the order the page lists it. */
  const FreeCourses: seq<Course> :=
    FrontendCourses + BackendCourses + TestingCourses + SecurityCourses + DevOpsCourses + SapCourses

  const FrontendCourses: seq<Course> := [HtmlCss, JavaScript, React, Angular]
  const BackendCourses: seq<Course> := [Python, Java, NodeJs, Django]
  const TestingCourses: seq<Course> := [Selenium, Jira, Cypress]
  const SecurityCourses: seq<Course> := [EthicalHacking, NetworkSecurity]
  const DevOpsCourses: seq<Course> := [Docker, Kubernetes, Aws]
  const SapCourses: seq<Course> := [SapBasics, SapAbap]

  const HtmlCss: Course := Free("html-css", "Complete HTML & CSS Course", "Learn HTML and CSS from scratch. Build responsive websites and understand web fundamentals.", "6 weeks", "beginner", "frontend", "html-course.jpg", "html-tutorial/")
  const JavaScript: Course := Free("javascript", "JavaScript Fundamentals", "Learn JavaScript programming language and build interactive web applications.", "10 weeks", "intermediate", "frontend", "js-course.jpg", "javascript/")
  const React: Course := Free("react", "React.js Development", "Build modern web applications with React.js. Learn components, hooks, and state management.", "12 weeks", "intermediate", "frontend", "react-course.jpg", "react-tutorial/")
  const Angular: Course := Free("angular", "Angular Complete Guide", "Master Angular framework for building dynamic single-page applications.", "14 weeks", "intermediate", "frontend", "angular-course.jpg", "angular-tutorial/")
  const Python: Course := Free("python", "Python Programming for Beginners", "Master Python programming from basics to advanced concepts. Perfect for beginners and job seekers.", "8 weeks", "beginner", "backend", "python-course.jpg", "python-programming-language/")
  const Java: Course := Free("java", "Java Complete Bootcamp", "Learn Java programming language with object-oriented programming concepts.", "10 weeks", "beginner", "backend", "java-course.jpg", "java/")
  const NodeJs: Course := Free("nodejs", "Node.js Backend Development", "Build scalable backend applications using Node.js, Express.js, and MongoDB.", "12 weeks", "intermediate", "backend", "nodejs-course.jpg", "nodejs/")
  const Django: Course := Free("django", "Django Web Framework", "Create powerful web applications using Django Python framework.", "10 weeks", "intermediate", "backend", "django-course.jpg", "django-tutorial/")
  const Selenium: Course := Free("selenium", "Selenium Automation Testing", "Learn automated testing with Selenium WebDriver for web applications.", "8 weeks", "intermediate", "testing", "selenium-course.jpg", "selenium-python-tutorial/")
  const Jira: Course := Free("jira", "JIRA for Project Management", "Master JIRA for bug tracking, project management, and agile workflows.", "4 weeks", "beginner", "testing", "jira-course.jpg", "what-is-jira-tool/")
  const Cypress: Course := Free("cypress", "Cypress End-to-End Testing", "Modern testing framework for web applications with real-time browser testing.", "6 weeks", "intermediate", "testing", "cypress-course.jpg", "cypress-tutorial/")
  const EthicalHacking: Course := Free("ethical-hacking", "Ethical Hacking Fundamentals", "Learn ethical hacking techniques and cybersecurity best practices.", "12 weeks", "intermediate", "cyber-security", "security-course.jpg", "what-is-ethical-hacking/")
  const NetworkSecurity: Course := Free("network-security", "Network Security Essentials", "Understand network security protocols, firewalls, and intrusion detection.", "10 weeks", "intermediate", "cyber-security", "network-course.jpg", "network-security/")
  const Docker: Course := Free("docker", "Docker Containerization", "Learn containerization with Docker for application deployment and scaling.", "8 weeks", "intermediate", "devops", "docker-course.jpg", "docker-tutorial/")
  const Kubernetes: Course := Free("kubernetes", "Kubernetes Orchestration", "Master Kubernetes for container orchestration and microservices management.", "10 weeks", "advanced", "devops", "k8s-course.jpg", "kubernetes/")
  const Aws: Course := Free("aws", "AWS Cloud Fundamentals", "Learn Amazon Web Services cloud computing platform and services.", "12 weeks", "beginner", "devops", "aws-course.jpg", "amazon-web-services-aws-tutorial/")
  const SapBasics: Course := Free("sap-basics", "SAP Fundamentals", "Introduction to SAP ERP system and business processes.", "8 weeks", "beginner", "sap", "sap-course.jpg", "what-is-sap/")
  const SapAbap: Course := Free("sap-abap", "SAP ABAP Programming", "Learn SAP ABAP programming language for custom development.", "12 weeks", "intermediate", "sap", "abap-course.jpg", "introduction-to-abap/")

  /**
   * An empty search matches everything; otherwise the folded term must occur
   * in the title, the description, or the instructor when there is a non-empty one.
   */
  predicate MatchesSearch(course: Course, searchTerm: string)
  {
    var term := Lower(searchTerm);
    searchTerm == "" ||
    Contains(Lower(course.title), term) || Contains(Lower(course.description), term) ||
    (course.instructor.Some? && course.instructor.value != "" && Contains(Lower(course.instructor.value), term))
  }

  predicate MatchesCategory(course: Course, selectedCategory: string)
  {
    selectedCategory == "all" || course.category == selectedCategory
  }

  /** The entries of `catalog` that match both inputs, in catalog order. */
  function SelectCourses(catalog: seq<Course>, searchTerm: string, selectedCategory: string): (r: seq<Course>)
    ensures Sequences.IsSubsequence(r, catalog)
    ensures forall c :: c in r <==>
      c in catalog && MatchesSearch(c, searchTerm) && MatchesCategory(c, selectedCategory)
    ensures forall c ::
      multiset(r)[c] == if MatchesSearch(c, searchTerm) && MatchesCategory(c, selectedCategory) then multiset(catalog)[c] else 0
  {
    var keep := (c: Course) => MatchesSearch(c, searchTerm) && MatchesCategory(c, selectedCategory);
    Sequences.FilterIsSubsequence(catalog, keep);
    Sequences.FilterCount(catalog, keep);
    Sequences.Filter(catalog, keep)
  }

  /** `filteredCourses`: the free-course catalog narrowed by the search text and the category. */
  function FilteredCourses(searchTerm: string, selectedCategory: string): seq<Course>
  {
    SelectCourses(FreeCourses, searchTerm, selectedCategory)
  }

  /** With no search text and the "all" category every entry is kept, in order. */
  lemma UnfilteredKeepsAll(catalog: seq<Course>)
    ensures SelectCourses(catalog, "", "all") == catalog
  {
    Sequences.FilterKeepsAll(catalog, (c: Course) => MatchesSearch(c, "") && MatchesCategory(c, "all"));
  }

  /** For a named category, exactly the matching courses of that category are kept. */
  lemma CategorySelection(catalog: seq<Course>, searchTerm: string, selectedCategory: string, c: Course)
    requires selectedCategory != "all"
    ensures c in SelectCourses(catalog, searchTerm, selectedCategory) <==>
      c in catalog && MatchesSearch(c, searchTerm) && c.category == selectedCategory
  {
  }

  /** A non-empty search is a case-insensitive substring test. */
  lemma SearchIsSubstringMatch(c: Course, searchTerm: string)
    requires searchTerm != ""
    ensures MatchesSearch(c, searchTerm) <==>
      (exists i :: OccursAt(Lower(c.title), Lower(searchTerm), i)) ||
      (exists i :: OccursAt(Lower(c.description), Lower(searchTerm), i)) ||
      (c.instructor.Some? && c.instructor.value != "" &&
       exists i :: OccursAt(Lower(c.instructor.value), Lower(searchTerm), i))
  {
    ContainsAt(Lower(c.title), Lower(searchTerm));
    ContainsAt(Lower(c.description), Lower(searchTerm));
    if c.instructor.Some? {
      ContainsAt(Lower(c.instructor.value), Lower(searchTerm));
    }
  }

  /** With no search text, a course is kept under its own category. */
  lemma ListedUnderOwnCategory(catalog: seq<Course>, c: Course)
    requires c in catalog
    ensures c in SelectCourses(catalog, "", c.category)
  {
  }

  /** The default page lists the whole free-course catalog. */
  lemma UnfilteredIsCatalog()
    ensures FilteredCourses("", "all") == FreeCourses
  {
    UnfilteredKeepsAll(FreeCourses);
  }

  /** The ids of the category buttons other than "all". */
  const CategoryIds: set<string> := {"frontend", "backend", "testing", "cyber-security", "devops", "sap"}

  /** `CategoryIds` is exactly the set of button ids other than "all". */
  lemma CategoryIdsAreButtons()
    ensures forall id :: id in CategoryIds <==> exists k :: k in Categories && k.id == id && id != "all"
  {
    assert Categories[1].id == "frontend" && Categories[2].id == "backend" && Categories[3].id == "testing";
    assert Categories[4].id == "cyber-security" && Categories[5].id == "devops" && Categories[6].id == "sap";
  }

  /** All entries of `group` have category `id`, and there is at least one. */
  predicate IsGroup(group: seq<Course>, id: string)
  {
    group != [] && forall c :: c in group ==> c.category == id
  }

  lemma FrontendGroup() ensures IsGroup(FrontendCourses, "frontend") {}
  lemma BackendGroup() ensures IsGroup(BackendCourses, "backend") {}
  lemma TestingGroup() ensures IsGroup(TestingCourses, "testing") {}
  lemma SecurityGroup() ensures IsGroup(SecurityCourses, "cyber-security") {}
  lemma DevOpsGroup() ensures IsGroup(DevOpsCourses, "devops") {}
  lemma SapGroup() ensures IsGroup(SapCourses, "sap") {}

  /** Every course belongs to a category that has a button. */
  lemma CatalogCategoriesListed()
    ensures forall c :: c in FreeCourses ==> c.category in CategoryIds
  {
    FrontendGroup(); BackendGroup(); TestingGroup(); SecurityGroup(); DevOpsGroup(); SapGroup();
  }

  /**
   * Each button category has a course in the catalog; with `ListedUnderOwnCategory`
   * each button therefore lists at least one course when there is no search text.
   */
  lemma FirstOfEachCategory()
    ensures FreeCourses[0].category == "frontend" && FreeCourses[4].category == "backend"
    ensures FreeCourses[8].category == "testing" && FreeCourses[11].category == "cyber-security"
    ensures FreeCourses[13].category == "devops" && FreeCourses[16].category == "sap"
  {
  }

  const Green: string := "bg-green-100 text-green-800"
  const Yellow: string := "bg-yellow-100 text-yellow-800"
  const Red: string := "bg-red-100 text-red-800"
  const Gray: string := "bg-gray-100 text-gray-800"

  /** `getLevelColor`: three known levels, gray for anything else. */
  function LevelColor(level: string): (cls: string)
    ensures level == "beginner" <==> cls == Green
    ensures level == "intermediate" <==> cls == Yellow
    ensures level == "advanced" <==> cls == Red
    ensures level != "beginner" && level != "intermediate" && level != "advanced" <==> cls == Gray
  {
    if level == "beginner" then Green
    else if level == "intermediate" then Yellow
    else if level == "advanced" then Red
    else Gray
  }

  /** The level badge: an empty level is coloured as "beginner". */
  function LevelBadgeClass(level: string): (cls: string)
    ensures level == "" ==> cls == Green + " text-xs"
    ensures level != "" ==> cls == LevelColor(level) + " text-xs"
  {
    LevelColor(if level == "" then "beginner" else level) + " text-xs"
  }

  /** The "Most Popular Courses" section is rendered only while the "all" category is selected. */
  predicate ShowsPopularSection(selectedCategory: string)
  {
    selectedCategory == "all"
  }

  /** The popular section shows under "all" and under no other category button. */
  lemma PopularOnlyUnderAll()
    ensures ShowsPopularSection("all")
    ensures forall k :: k in Categories && k.id != "all" ==> !ShowsPopularSection(k.id)
  {
  }
}
