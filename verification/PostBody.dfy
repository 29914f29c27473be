/** Post body trees and the patches sent for them. */
module PostBody {
  import opened Wrappers

  datatype PendingNode =
    | Flip
    | EightBall
    | Pyu
    | PCount
    | Countdown(seconds: nat)
    | Autobahn(hours: nat)
    | Dice(offset: int, faces: nat, rolls: nat)

  datatype CommandResult =
    | DiceResult(offset: int, faces: nat, results: seq<nat>)
    | FlipResult(heads: bool)
    | EightBallResult(answer: string)
    | CountdownResult(start: nat, secs: nat)
    | AutobahnResult(hours: nat)
    | PyuResult(count: nat)
    | PCountResult(count: nat)

  datatype Provider = YouTube | SoundCloud | Vimeo | Coub | Twitter | Imgur | BitChute | Invidious

  datatype Node =
    | Empty
    | NewLine
    | Siblings(left: Node, right: Node)
    | Text(text: string)
    | PostLink(id: nat, thread: nat, page: nat)
    | Command(result: CommandResult)
    | URL(url: string)
    | Reference(name: string, target: string)
    | Embed(provider: Provider, data: string)
    | Code(html: string)
    | Spoiler(inner: Node)
    | Bold(inner: Node)
    | Italic(inner: Node)
    | Quoted(inner: Node)
    | Pending(pending: PendingNode)

  datatype TextPatch = TextPatch(position: nat, remove: nat, insert: string)

  datatype PatchNode =
    | Replace(node: Node)
    | SiblingsPatch(left: Option<PatchNode>, right: Option<PatchNode>)
    | Patch(patch: TextPatch)

  predicate IsWrapper(n: Node) {
    n.Spoiler? || n.Bold? || n.Italic? || n.Quoted?
  }

  /** No node pending finalisation and no embed, at any depth. */
  predicate OpenSafe(n: Node) {
    match n
    case Pending(_) => false
    case Embed(_, _) => false
    case Siblings(l, r) => OpenSafe(l) && OpenSafe(r)
    case Spoiler(i) => OpenSafe(i)
    case Bold(i) => OpenSafe(i)
    case Italic(i) => OpenSafe(i)
    case Quoted(i) => OpenSafe(i)
    case _ => true
  }

  /** Every node a patch puts into a tree is safe for an open post. */
  predicate PatchSafe(p: PatchNode) {
    match p
    case Replace(n) => OpenSafe(n)
    case SiblingsPatch(l, r) => (l.Some? ==> PatchSafe(l.value)) && (r.Some? ==> PatchSafe(r.value))
    case Patch(_) => true
  }
}
