/** The platform's records (lib/types.ts). Money is an integer number of
    minor currency units (2.50 is 250); timestamps are integer milliseconds;
    ratings are integer tenths of a star (4.8 is 48). */
module Types {
  import opened Optional

  /** Order status, in the declaration order of the `status` union. */
  datatype Status =
    | Pending
    | Confirmed
    | Preparing
    | Ready
    | AwaitingDelivery
    | Assigned
    | InTransit
    | Delivered
    | Cancelled

  /** The string the application stores for a status. */
  function StatusName(s: Status): (n: string)
    ensures |n| > 0 && 'a' <= n[0] <= 'z'
  {
    match s
    case Pending => "pending"
    case Confirmed => "confirmed"
    case Preparing => "preparing"
    case Ready => "ready"
    case AwaitingDelivery => "awaiting_delivery"
    case Assigned => "assigned"
    case InTransit => "in_transit"
    case Delivered => "delivered"
    case Cancelled => "cancelled"
  }

  /** Position of a status in the union's declaration order. */
  function StatusRank(s: Status): nat {
    match s
    case Pending => 0
    case Confirmed => 1
    case Preparing => 2
    case Ready => 3
    case AwaitingDelivery => 4
    case Assigned => 5
    case InTransit => 6
    case Delivered => 7
    case Cancelled => 8
  }

  /** Distinct statuses are stored as distinct strings and ranks. */
  lemma StatusNameInjective(a: Status, b: Status)
    ensures StatusName(a) == StatusName(b) <==> a == b
    ensures StatusRank(a) == StatusRank(b) <==> a == b
  {
  }

  datatype Role = Customer | KitchenOwner | DeliveryAgent | Admin

  function RoleName(r: Role): string {
    match r
    case Customer => "customer"
    case KitchenOwner => "kitchen"
    case DeliveryAgent => "delivery"
    case Admin => "admin"
  }

  datatype Vehicle = Cycle | EVehicle | Motorcycle | PublicTransport | Car

  function VehicleName(v: Vehicle): string {
    match v
    case Cycle => "cycle"
    case EVehicle => "e_vehicle"
    case Motorcycle => "motorcycle"
    case PublicTransport => "public_transport"
    case Car => "car"
  }

  datatype KitchenType = CloudKitchenType | HomeOffice | Both

  function KitchenTypeName(t: KitchenType): string {
    match t
    case CloudKitchenType => "cloud_kitchen"
    case HomeOffice => "home_office"
    case Both => "both"
  }

  datatype CloudKitchen = CloudKitchen(
    id: string,
    name: string,
    deliveryTime: int,
    deliveryFee: int,
    cuisineType: seq<string>,
    kitchenType: KitchenType,
    minOrderAmount: int,
    subscriptionAvailable: bool)

  datatype MenuItem = MenuItem(
    id: string,
    restaurantId: string,
    name: string,
    price: int,
    category: string,
    available: bool,
    vegetarian: bool)

  datatype OrderItem = OrderItem(
    menuItemId: string,
    name: string,
    quantity: int,
    price: int,
    specialInstructions: Option<string>)

  datatype OrderType = OneTime | Weekly | Monthly

  datatype Address = Address(street: string, area: string, city: string, pincode: string)

  datatype Order = Order(
    id: string,
    customerId: string,
    kitchenId: string,
    items: seq<OrderItem>,
    orderType: OrderType,
    status: Status,
    subtotal: int,
    deliveryFee: int,
    platformFee: int,
    total: int,
    deliveryPartner: Option<string>,
    estimatedDeliveryTime: Option<int>,
    deliveryAddress: Address,
    priorityDelivery: bool,
    createdAt: int,
    updatedAt: int)

  datatype Traffic = Light | Moderate | Heavy

  datatype Route = Route(distanceMetres: int, estimatedDuration: int, traffic: Traffic)

  datatype BidStatus = Open | Accepted | Rejected | Expired

  datatype DeliveryBid = DeliveryBid(
    id: string,
    orderId: string,
    deliveryPartnerId: string,
    bidAmount: int,
    estimatedTime: int,
    vehicleType: Vehicle,
    route: Route,
    status: BidStatus,
    createdAt: int,
    expiresAt: Option<int>)

  datatype DeliveryPartner = DeliveryPartner(
    id: string,
    userId: string,
    name: string,
    phone: string,
    rating: int,
    completedDeliveries: nat,
    isAvailable: bool,
    availableVehicles: seq<Vehicle>,
    preferredVehicleType: string,
    averageDeliveryTime: int)

  /** Fields a registered user carries only for some roles. */
  datatype RoleExtras =
    | NoExtras
    | KitchenExtras(kitchenName: string, kitchenAddress: string, fssaiLicense: string,
                    gstNumber: string, cuisine: seq<string>)
    | DeliveryExtras(vehicleType: string, licenseNumber: string, aadharNumber: string)

  datatype User = User(
    id: string,
    email: string,
    name: string,
    phone: string,
    role: Role,
    extras: RoleExtras)
}
