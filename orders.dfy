/**
 * The top-level cancelOrder function (admin.js:490-502). It keeps no state
 * of its own: what it does is a short sequence of effects, which the model
 * returns as a value. `confirmed` is the answer to the `confirm` dialog and
 * `reply` the answer to the DELETE request.
 */
module OrderCancel {
  import opened Remote

  datatype Effect =
    | SendDelete(orderId: string)   // DELETE /orders/{id}
    | Alert(message: string)        // a blocking `alert` dialog
    | RefetchOrders                 // fetchOrders(), not awaited

  function CancelOrder(orderId: string, confirmed: bool, reply: Reply<()>): (effects: seq<Effect>)
    ensures !confirmed <==> effects == []
    ensures confirmed ==> effects[0] == SendDelete(orderId) && |effects| >= 2 && effects[1].Alert?
    ensures forall i :: 0 < i < |effects| ==> !effects[i].SendDelete?
    ensures RefetchOrders in effects <==> confirmed && reply.Ok?
    ensures confirmed ==> |effects| == (if reply.Ok? then 3 else 2)
    ensures confirmed ==> (effects[1] == Alert("✅ Order deleted successfully!") <==> reply.Ok?)
    ensures confirmed && !reply.Ok? ==>
              effects[1] == Alert("❌ Error deleting order: " + Reason(reply, "Failed to delete order"))
  {
    if !confirmed then []
    else if reply.Ok? then
      [SendDelete(orderId), Alert("✅ Order deleted successfully!"), RefetchOrders]
    else
      var message := "❌ Error deleting order: " + Reason(reply, "Failed to delete order");
      assert message[0] == '❌';
      [SendDelete(orderId), Alert(message)]
  }
}
