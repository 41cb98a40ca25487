/** The projects page: its fixed project list, which projects it shows under the
    router's filter, and when it shows the filter indicator and the no-results block. */
module ProjectsPage {
  import opened Wrappers
  import Seqs
  import opened ContentFilter

  /** A project record; the description and technology list are display text and are
      not modelled (every technology list equals the project's tags). */
  datatype Project = Project(name: string, category: string, tags: seq<string>,
                             liveLink: Option<string>, githubLink: Option<string>, stealth: bool)

  const PROJECTS: seq<Project> := [
    Project("GRC AI Governance Serverless Platform", "GRC",
            ["AWS Lambda", "API Gateway", "DynamoDB", "S3", "CloudFormation", "Python", "Node.js",
             "AWS IAM", "CloudWatch", "EventBridge"],
            None, Some("https://github.com/ajwill85/grc-ai-governance-serverless"), false),
    Project("AWS AI Governance Framework with Policy-as-Code", "GRC",
            ["Python", "AWS SageMaker", "Open Policy Agent", "Rego", "boto3", "IAM", "KMS", "S3",
             "ISO 27001", "ISO 27701", "ISO 42001"],
            None, Some("https://github.com/ajwill85/aws-ai-governance-framework"), false),
    Project("Human Risk Intelligence v3.0 - Cybersecurity News Aggregator", "Content Delivery",
            ["React", "Vite", "Lucide React", "AWS Lambda", "API Gateway", "DynamoDB", "S3",
             "CloudFront", "ACM", "Cloudflare DNS"],
            Some("https://www.humanriskintel.com"), Some("https://github.com/ajwill85/human-risk-intelligence"), false),
    Project("Portfolio Website with Serverless Backend", "Web Development",
            ["React", "Vite", "AWS Lambda", "API Gateway", "DynamoDB", "S3", "CloudFront", "ACM", "SES",
             "CloudFormation", "IaC", "Cloudflare DNS"],
            Some("https://ajwill.ai"), Some("https://github.com/ajwill85/my_personal_website"), false),
    Project("FIRE Calculator", "Personal Finance",
            ["Next.js", "React", "TypeScript", "Tailwind CSS", "Recharts", "AWS Amplify"],
            Some("https://welitfire.com"), Some("https://github.com/ajwill85/fire-calculator"), true),
    Project("Trading Sentiment Analysis Platform", "AI/ML",
            ["Python", "React", "TypeScript", "FastAPI", "NLP/Vader", "PostgreSQL", "AWS Fargate",
             "AWS ECS", "Docker", "GitHub Actions", "Terraform"],
            None, None, true),
    Project("AWS: Banking ID Verification App", "AI/ML",
            ["AWS IAM", "S3", "AWS Lambda", "AWS Rekognition", "AWS Textract", "SQS Queue", "SNS Topic",
             "API Gateway", "DynamoDB"],
            None, None, true)
  ]

  /** `getFilteredProjects()`: all projects when the filter is not set, otherwise the
      projects the filter keeps, in their original order. */
  function FilteredProjects(projects: seq<Project>, f: Filter): (r: seq<Project>)
    ensures !IsSet(f) ==> r == projects
    ensures Seqs.IsSubsequence(r, projects)
    ensures forall i :: 0 <= i < |projects| ==>
              (projects[i] in r <==> !IsSet(f) || Keeps(f, projects[i].category, projects[i].tags))
    ensures forall i :: 0 <= i < |r| ==> r[i] in projects
    ensures forall p: Project :: multiset(r)[p] ==
              if !IsSet(f) || Keeps(f, p.category, p.tags) then multiset(projects)[p] else 0
  {
    if !IsSet(f) then Seqs.SubsequenceReflexive(projects); projects
    else
      var keep := (p: Project) => Keeps(f, p.category, p.tags);
      Seqs.FilterCounts(projects, keep);
      Seqs.Filter(projects, keep)
  }

  /** The filter indicator is shown exactly when the filter is set. */
  predicate ShowsFilterIndicator(f: Filter) {
    IsSet(f)
  }

  /** The no-results block: nothing passes the filter although there are projects. */
  function ShowsNoResults(projects: seq<Project>, f: Filter): (b: bool)
    ensures b <==> |projects| > 0 && IsSet(f) &&
                   forall i :: 0 <= i < |projects| ==> !Keeps(f, projects[i].category, projects[i].tags)
  {
    |FilteredProjects(projects, f)| == 0 && |projects| > 0
  }

  /** A `category` filter keeps exactly the projects of that category. */
  lemma CategoryFilter(projects: seq<Project>, value: string, p: Project)
    requires value != "" && p in projects
    ensures p in FilteredProjects(projects, Filter(Some("category"), Some(value))) <==> p.category == value
  {
  }

  /** A `tag` filter keeps exactly the projects carrying that tag. */
  lemma TagFilter(projects: seq<Project>, value: string, p: Project)
    requires value != "" && p in projects
    ensures p in FilteredProjects(projects, Filter(Some("tag"), Some(value))) <==> value in p.tags
  {
  }

  /** A set filter of any other type keeps every project, in order. */
  lemma {:induction false} OtherKindKeepsAll(projects: seq<Project>, f: Filter)
    requires IsSet(f) && f.kind != Some("category") && f.kind != Some("tag")
    ensures FilteredProjects(projects, f) == projects
  {
    Seqs.FilterKeepsAll(projects, (p: Project) => Keeps(f, p.category, p.tags));
  }

  /** Clicking a project's category, or one of its tags, filters to a list that still holds it. */
  lemma OwnFilterKeepsCard(projects: seq<Project>, p: Project, tag: string)
    requires p in projects && p.category != "" && tag in p.tags && tag != ""
    ensures p in FilteredProjects(projects, Filter(Some("category"), Some(p.category)))
    ensures p in FilteredProjects(projects, Filter(Some("tag"), Some(tag)))
  {
  }

  /** The no-results block appears only under a `category` or `tag` filter, so it always
      comes with the filter indicator. */
  lemma {:induction false} NoResultsNeedsFilter(projects: seq<Project>, f: Filter)
    requires ShowsNoResults(projects, f)
    ensures ShowsFilterIndicator(f)
    ensures f.kind == Some("category") || f.kind == Some("tag")
  {
    if IsSet(f) && f.kind != Some("category") && f.kind != Some("tag") {
      OtherKindKeepsAll(projects, f);
    }
  }

  /** Every project has a non-empty category, so every card can be filtered by its category. */
  lemma CategoriesSet()
    ensures forall i :: 0 <= i < |PROJECTS| ==> PROJECTS[i].category != ""
  {
  }
}
