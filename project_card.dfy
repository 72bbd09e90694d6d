/**
 * One project card: its props, the two pieces of state it keeps
 * (`isHovered`, `isExpanded`), what a click on the card or on one of its
 * buttons does, and which parts of the card are visible.
 *
 * The viewport width the component reads from the window at each event is a
 * parameter here, and opening a link in a new tab is an output value.
 */
module ProjectCard {
  import opened Wrappers

  datatype Status = Active | Completed | Ongoing

  datatype ProjectCardProps = ProjectCardProps(
    title: string,
    role: string,
    period: string,
    description: string,
    technologies: seq<string>,
    githubUrl: Option<string>,
    demoUrl: Option<string>,
    teamSize: Option<int>,
    status: Option<Status>,
    logo: Option<string>,
    category: string)

  /** Widths up to and including this are treated as a phone. */
  const MobileBreakpoint: int := 768

  predicate IsNarrow(width: int) {
    width <= MobileBreakpoint
  }

  /** JavaScript truthiness of an optional string: absent and empty are both false. */
  predicate Truthy(u: Option<string>) {
    u.Some? && u.value != ""
  }

  /** The status shown when the prop is left out is `completed`. */
  function EffectiveStatus(status: Option<Status>): (s: Status)
    ensures status.Some? ==> s == status.value
    ensures status.None? ==> s == Completed
  {
    match status
    case Some(s) => s
    case None => Completed
  }

  /** The text of the status badge. */
  function StatusLabel(status: Option<Status>): (text: string)
    ensures text == "Active" <==> EffectiveStatus(status) == Active
    ensures text == "Ongoing" <==> EffectiveStatus(status) == Ongoing
    ensures text == "Completed" <==> EffectiveStatus(status) == Completed
  {
    var s := EffectiveStatus(status);
    if s == Active then "Active" else if s == Ongoing then "Ongoing" else "Completed"
  }

  /** What a click on the card body does. */
  datatype ClickAction = ToggleExpanded | OpenUrl(url: string)

  /**
   * The click decision table: on a phone the card always expands or
   * collapses; on a wide screen it opens the GitHub link if there is one,
   * else the demo link if there is one, and otherwise expands or collapses.
   */
  function CardClickAction(props: ProjectCardProps, width: int): (a: ClickAction)
    ensures IsNarrow(width) ==> a == ToggleExpanded
    ensures !IsNarrow(width) && Truthy(props.githubUrl) ==> a == OpenUrl(props.githubUrl.value)
    ensures !IsNarrow(width) && !Truthy(props.githubUrl) && Truthy(props.demoUrl) ==> a == OpenUrl(props.demoUrl.value)
    ensures !IsNarrow(width) && !Truthy(props.githubUrl) && !Truthy(props.demoUrl) ==> a == ToggleExpanded
  {
    if IsNarrow(width) then
      ToggleExpanded
    else if Truthy(props.githubUrl) || Truthy(props.demoUrl) then
      OpenUrl(if Truthy(props.githubUrl) then props.githubUrl.value else props.demoUrl.value)
    else
      ToggleExpanded
  }

  /** Whether the "Show more"/"Show less" button is rendered. */
  function ShouldShowExpandButton(props: ProjectCardProps, width: int): bool {
    IsNarrow(width) || (!Truthy(props.githubUrl) && !Truthy(props.demoUrl))
  }

  /**
   * The expand button is offered exactly where a click on the card would
   * expand it rather than open a link.
   */
  lemma ExpandButtonIffClickExpands(props: ProjectCardProps, width: int)
    ensures ShouldShowExpandButton(props, width) <==> CardClickAction(props, width) == ToggleExpanded
  {
  }

  /** A link the card opens is never empty and is one of the card's own links. */
  lemma OpenedUrlIsOwnLink(props: ProjectCardProps, width: int)
    ensures CardClickAction(props, width).OpenUrl? ==>
      && CardClickAction(props, width).url != ""
      && (Some(CardClickAction(props, width).url) == props.githubUrl ||
          Some(CardClickAction(props, width).url) == props.demoUrl)
  {
  }

  /** The details panel (technologies and action buttons) shows while hovered or expanded. */
  function DetailsVisible(isHovered: bool, isExpanded: bool): bool {
    isHovered || isExpanded
  }

  /** The action buttons, inside the panel, show on wide screens or when expanded. */
  function ActionButtonsVisible(isHovered: bool, isExpanded: bool, width: int): (v: bool)
    ensures v ==> DetailsVisible(isHovered, isExpanded)
  {
    DetailsVisible(isHovered, isExpanded) && (!IsNarrow(width) || isExpanded)
  }

  /** The "Code" button needs a GitHub link; the "Demo" button a demo link. */
  function CodeButtonVisible(props: ProjectCardProps, isHovered: bool, isExpanded: bool, width: int): (v: bool)
    ensures v ==> Truthy(props.githubUrl) && ActionButtonsVisible(isHovered, isExpanded, width)
  {
    ActionButtonsVisible(isHovered, isExpanded, width) && Truthy(props.githubUrl)
  }

  function DemoButtonVisible(props: ProjectCardProps, isHovered: bool, isExpanded: bool, width: int): (v: bool)
    ensures v ==> Truthy(props.demoUrl) && ActionButtonsVisible(isHovered, isExpanded, width)
  {
    ActionButtonsVisible(isHovered, isExpanded, width) && Truthy(props.demoUrl)
  }

  /**
   * On a phone the action buttons follow the expansion alone, whatever the
   * hover flag says; on a wide screen they follow the panel.
   */
  lemma ActionButtonsByViewport(isHovered: bool, isExpanded: bool, width: int)
    ensures IsNarrow(width) ==> (ActionButtonsVisible(isHovered, isExpanded, width) <==> isExpanded)
    ensures !IsNarrow(width) ==> (ActionButtonsVisible(isHovered, isExpanded, width) <==> DetailsVisible(isHovered, isExpanded))
  {
  }

  /** The label of the expand button. */
  function ExpandButtonLabel(isExpanded: bool): (text: string)
    ensures text == "Show less" <==> isExpanded
    ensures text == "Show more" <==> !isExpanded
  {
    if isExpanded then "Show less" else "Show more"
  }

  class Card {
    const props: ProjectCardProps
    var isHovered: bool
    var isExpanded: bool

    /** A card mounts neither hovered nor expanded. */
    constructor (props: ProjectCardProps)
      ensures this.props == props
      ensures !isHovered && !isExpanded
    {
      this.props := props;
      isHovered := false;
      isExpanded := false;
    }

    /** A click on the card body: toggles the expansion or returns the link to open. */
    method HandleCardClick(width: int) returns (link: Option<string>)
      modifies this
      ensures isHovered == old(isHovered)
      ensures CardClickAction(props, width) == ToggleExpanded ==> link == None && isExpanded == !old(isExpanded)
      ensures CardClickAction(props, width).OpenUrl? ==>
        link == Some(CardClickAction(props, width).url) && isExpanded == old(isExpanded)
    {
      if width <= 768 {
        isExpanded := !isExpanded;
        link := None;
      } else {
        if Truthy(props.githubUrl) || Truthy(props.demoUrl) {
          link := Some(if Truthy(props.githubUrl) then props.githubUrl.value else props.demoUrl.value);
        } else {
          isExpanded := !isExpanded;
          link := None;
        }
      }
    }

    /** The "Show more"/"Show less" button; its click does not reach the card. */
    method ClickExpandButton(width: int)
      requires ShouldShowExpandButton(props, width)
      modifies this
      ensures isExpanded == !old(isExpanded) && isHovered == old(isHovered)
    {
      isExpanded := !isExpanded;
    }

    /** The "Code" button opens the GitHub link; its click does not reach the card. */
    method ClickCodeButton(width: int) returns (link: string)
      requires CodeButtonVisible(props, isHovered, isExpanded, width)
      ensures Some(link) == props.githubUrl && link != ""
    {
      link := props.githubUrl.value;
    }

    /** The "Demo" button opens the demo link; its click does not reach the card. */
    method ClickDemoButton(width: int) returns (link: string)
      requires DemoButtonVisible(props, isHovered, isExpanded, width)
      ensures Some(link) == props.demoUrl && link != ""
    {
      link := props.demoUrl.value;
    }

    /** The pointer enters the card: only a wide screen records hovering. */
    method HoverStart(width: int)
      modifies this
      ensures isHovered == (old(isHovered) || !IsNarrow(width))
      ensures isExpanded == old(isExpanded)
    {
      if width > 768 {
        isHovered := true;
      }
    }

    /** The pointer leaves the card: only a wide screen clears hovering. */
    method HoverEnd(width: int)
      modifies this
      ensures isHovered == (old(isHovered) && IsNarrow(width))
      ensures isExpanded == old(isExpanded)
    {
      if width > 768 {
        isHovered := false;
      }
    }
  }
}
